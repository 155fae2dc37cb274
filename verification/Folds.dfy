/** Chronological partitions: the holdout and the forward folds of a robustness run. */
module Folds {
  import opened Numbers
  import opened Signals
  import opened Protection
  import opened ProtectionRuns
  import opened Robustness

  /** The first candle after the research cut, the end when there is none, and the start without a cut. */
  function Unseen(candles: seq<Candle>, after: Option<int>): (first: nat)
    ensures first <= |candles|
    ensures after.Some? ==> forall k :: 0 <= k < first ==> candles[k].at <= after.value
    ensures after.Some? && first < |candles| ==> candles[first].at > after.value
  {
    if after.None? then 0
    else if candles == [] then 0
    else
      var init := Unseen(candles[..|candles| - 1], after);
      if init < |candles| - 1 then init
      else if candles[|candles| - 1].at > after.value then |candles| - 1
      else |candles|
  }

  /** The forward start: two fifths into the history, or the first unseen candle if that is later. */
  function ForwardStart(candles: seq<Candle>, after: Option<int>): (start: nat)
    ensures start <= |candles|
  {
    MaxNat(2 * |candles| / 5, Unseen(candles, after))
  }

  /** The forward start is the first index from which two fifths of the history are past and all is unseen. */
  lemma ForwardStartIsFirst(candles: seq<Candle>, after: Option<int>, k: nat)
    requires Chronological(candles) && k <= |candles|
    ensures ForwardStart(candles, after) <= k <==>
      && 5 * k + 5 > 2 * |candles|
      && (after.Some? ==> forall j :: k <= j < |candles| ==> candles[j].at > after.value)
  {
    hide Unseen;
    if after.Some? && Unseen(candles, after) > k {
      assert candles[k].at <= after.value;
    }
    UnseenWithoutCut(candles, after);
  }

  lemma UnseenWithoutCut(candles: seq<Candle>, after: Option<int>)
    ensures after.None? ==> Unseen(candles, after) == 0
  {
  }

  /** Where a fold starts, the end of the last one included: the forward candles in thirds, rounded down. */
  function FoldStart(candles: seq<Candle>, after: Option<int>, fold: nat): (limit: nat)
    requires fold <= 3
    ensures ForwardStart(candles, after) <= limit <= |candles|
  {
    var start := ForwardStart(candles, after);
    var forward := |candles| - start;
    if fold == 0 then start else if fold == 1 then start + forward / 3
    else if fold == 2 then start + 2 * forward / 3 else |candles|
  }

  predicate InFold(candles: seq<Candle>, after: Option<int>, fold: nat, k: nat)
    requires fold < 3
  {
    FoldStart(candles, after, fold) <= k < FoldStart(candles, after, fold + 1)
  }

  function FoldSize(candles: seq<Candle>, after: Option<int>, fold: nat): int
    requires fold < 3
  {
    FoldStart(candles, after, fold + 1) - FoldStart(candles, after, fold)
  }

  /** The folds are in order, and their sizes differ by at most one. */
  lemma FoldsAreBalanced(candles: seq<Candle>, after: Option<int>)
    ensures FoldStart(candles, after, 0) <= FoldStart(candles, after, 1) <= FoldStart(candles, after, 2)
    ensures forall f, g :: 0 <= f < g < 3 ==> -1 <= FoldSize(candles, after, f) - FoldSize(candles, after, g) <= 1
  {
    hide ForwardStart;
  }

  ghost predicate EntersWithin(t: Trade, candles: seq<Candle>, start: nat, end: nat, blockedAt: int -> bool)
    requires start <= end <= |candles|
  {
    exists k :: start <= k < end && t.enteredAt == candles[k].at && !blockedAt(candles[k].at)
  }

  /** A partition trades only on its own, unblocked candles: the warm-up never trades. */
  lemma PartitionEntersWithin(s: Strategy, c: Config, candles: seq<Candle>, start: nat, end: nat,
                              blockedAt: int -> bool)
    requires start <= end <= |candles|
    ensures forall t :: t in Windowed(s, c, candles, start, end, blockedAt).trades ==>
      EntersWithin(t, candles, start, end, blockedAt)
  {
    hide Simulated;
    var setting := PartitionSetting(candles, start, end, blockedAt);
    var window := candles[WindowStart(start)..end];
    EntriesAreAllowed(s, c, setting, window, |window|);
    var trades := Windowed(s, c, candles, start, end, blockedAt).trades;
    forall t | t in trades
      ensures EntersWithin(t, candles, start, end, blockedAt)
    {
      var i :| 0 <= i < |trades| && trades[i] == t;
      assert EntryAllowed(setting, window, |window|, trades[i].enteredAt);
    }
  }

  lemma UnseenIsLater(candles: seq<Candle>, after: int, k: nat)
    requires Chronological(candles) && Unseen(candles, Some(after)) <= k < |candles|
    ensures candles[k].at > after
  {
  }

  /** No evaluated trade, holdout or fold, enters at or before the research cut. */
  lemma EvaluationIsUnseen(s: Strategy, c: Config, candles: seq<Candle>, start: nat, end: nat, blockedAt: int -> bool,
                           after: int)
    requires Chronological(candles) && Unseen(candles, Some(after)) <= start <= end <= |candles|
    ensures forall t :: t in Windowed(s, c, candles, start, end, blockedAt).trades ==> t.enteredAt > after
  {
    hide Windowed, Unseen;
    PartitionEntersWithin(s, c, candles, start, end, blockedAt);
    forall t | t in Windowed(s, c, candles, start, end, blockedAt).trades
      ensures t.enteredAt > after
    {
      assert EntersWithin(t, candles, start, end, blockedAt);
      var k :| start <= k < end && t.enteredAt == candles[k].at && !blockedAt(candles[k].at);
      UnseenIsLater(candles, after, k);
    }
  }

  /** The folds tile the forward candles: an unblocked candle may be entered in a fold exactly when it lies in
      that fold, from the forward start on it lies in exactly one fold, before it in none, and no fold holds a
      candle at or before the research cut. */
  lemma FoldsTileTheForwardCandles(candles: seq<Candle>, after: Option<int>, blockedAt: int -> bool, k: nat)
    requires Chronological(candles) && k < |candles| && !blockedAt(candles[k].at)
    ensures FoldStart(candles, after, 0) <= FoldStart(candles, after, 1) <= FoldStart(candles, after, 2)
    ensures forall fold :: 0 <= fold < 3 ==> (InFold(candles, after, fold, k) <==>
      candles[k].at in EntryTimes(candles, FoldStart(candles, after, fold), FoldStart(candles, after, fold + 1),
                                  blockedAt))
    ensures k >= ForwardStart(candles, after) <==> exists fold :: 0 <= fold < 3 && InFold(candles, after, fold, k)
    ensures forall f, g :: 0 <= f < 3 && 0 <= g < 3 && InFold(candles, after, f, k) && InFold(candles, after, g, k) ==>
      f == g
    ensures after.Some? && k >= ForwardStart(candles, after) ==> candles[k].at > after.value
  {
    hide ForwardStart, EntryTimes;
    FoldsAreBalanced(candles, after);
    forall fold | 0 <= fold < 3
      ensures InFold(candles, after, fold, k) <==>
        candles[k].at in EntryTimes(candles, FoldStart(candles, after, fold), FoldStart(candles, after, fold + 1),
                                    blockedAt)
    {
      FoldsAreBalanced(candles, after);
      OwnCandles(candles, FoldStart(candles, after, fold), FoldStart(candles, after, fold + 1), blockedAt, k);
    }
    if k >= ForwardStart(candles, after) {
      ForwardIsUnseen(candles, after, k);
      var fold := if k < FoldStart(candles, after, 1) then 0 else if k < FoldStart(candles, after, 2) then 1 else 2;
      assert InFold(candles, after, fold, k);
    }
  }

  lemma ForwardIsUnseen(candles: seq<Candle>, after: Option<int>, k: nat)
    requires Chronological(candles) && ForwardStart(candles, after) <= k < |candles|
    ensures after.Some? ==> candles[k].at > after.value
  {
    hide Unseen;
    if after.Some? {
      UnseenIsLater(candles, after.value, k);
    }
  }

  lemma OwnCandles(candles: seq<Candle>, start: nat, end: nat, blockedAt: int -> bool, k: nat)
    requires Chronological(candles) && start <= end <= |candles| && k < |candles| && !blockedAt(candles[k].at)
    ensures candles[k].at in EntryTimes(candles, start, end, blockedAt) <==> start <= k < end
  {
  }

  lemma FoldsTradeInOrder(s: Strategy, c: Config, candles: seq<Candle>, a: nat, b: nat, d: nat, e: nat,
                          blockedAt: int -> bool, t: Trade, u: Trade)
    requires Chronological(candles) && a <= b <= d <= e <= |candles|
    requires t in Windowed(s, c, candles, a, b, blockedAt).trades
      && u in Windowed(s, c, candles, d, e, blockedAt).trades
    ensures t.enteredAt < u.enteredAt
  {
    hide Windowed;
    PartitionEntersWithin(s, c, candles, a, b, blockedAt);
    PartitionEntersWithin(s, c, candles, d, e, blockedAt);
    assert EntersWithin(t, candles, a, b, blockedAt) && EntersWithin(u, candles, d, e, blockedAt);
  }
}
