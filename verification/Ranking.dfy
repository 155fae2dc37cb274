/** The order of research results: higher scores first, equal scores by name, ties in arrival order. */
module Ranking {
  import opened Numbers

  datatype Entry<+T> = Entry(score: real, name: string, item: T)

  /** Strings in code-point order. */
  predicate Less(a: string, b: string) {
    b != [] && (a == [] || a[0] < b[0] || (a[0] == b[0] && Less(a[1..], b[1..])))
  }

  predicate Before<T>(a: Entry<T>, b: Entry<T>) {
    a.score > b.score || (a.score == b.score && Less(a.name, b.name))
  }

  ghost predicate InOrder<T>(s: seq<Entry<T>>) {
    forall i, j :: 0 <= i < j < |s| ==> !Before(s[j], s[i])
  }

  /** Behind everything it does not precede. */
  function Insert<T>(s: seq<Entry<T>>, e: Entry<T>): (r: seq<Entry<T>>)
    ensures multiset(r) == multiset(s) + multiset{e} && |r| == |s| + 1
  {
    if s == [] then [e]
    else
      var n := |s| - 1;
      assert s == s[..n] + [s[n]];
      if Before(e, s[n]) then Insert(s[..n], e) + [s[n]] else s + [e]
  }

  /** `sorted(..., key=lambda item: (-score, name))`. */
  function Ranked<T>(s: seq<Entry<T>>): (r: seq<Entry<T>>)
    ensures multiset(r) == multiset(s) && |r| == |s|
  {
    if s == [] then []
    else
      var n := |s| - 1;
      assert s == s[..n] + [s[n]];
      Insert(Ranked(s[..n]), s[n])
  }

  lemma {:induction false} LessIsAsymmetric(a: string, b: string)
    ensures !(Less(a, b) && Less(b, a))
    decreases |a|
  {
    if a != [] && b != [] {
      LessIsAsymmetric(a[1..], b[1..]);
    }
  }

  lemma {:induction false} NotLessIsTransitive(a: string, b: string, c: string)
    requires !Less(a, b) && !Less(b, c)
    ensures !Less(a, c)
    decreases |a|
  {
    if a != [] && b != [] && c != [] {
      if a[0] == b[0] && b[0] == c[0] {
        NotLessIsTransitive(a[1..], b[1..], c[1..]);
      }
    }
  }

  lemma NotBeforeIsTransitive<T>(a: Entry<T>, b: Entry<T>, c: Entry<T>)
    requires !Before(a, b) && !Before(b, c)
    ensures !Before(a, c)
  {
    if a.score == b.score == c.score {
      NotLessIsTransitive(a.name, b.name, c.name);
    }
  }

  lemma {:induction false} InsertKeepsOrder<T>(s: seq<Entry<T>>, e: Entry<T>)
    requires InOrder(s)
    ensures InOrder(Insert(s, e))
  {
    hide Before;
    if s != [] {
      var n := |s| - 1;
      if Before(e, s[n]) {
        var front := Insert(s[..n], e);
        InsertKeepsOrder(s[..n], e);
        forall i | 0 <= i < |front|
          ensures !Before(s[n], front[i])
        {
          assert front[i] in multiset(front);
          if front[i] == e {
            BeforeIsAsymmetric(e, s[n]);
          } else {
            assert front[i] in multiset(s[..n]);
            var k :| 0 <= k < n && s[..n][k] == front[i];
          }
        }
      } else {
        forall i | 0 <= i < |s|
          ensures !Before(e, s[i])
        {
          if i < n {
            NotBeforeIsTransitive(e, s[n], s[i]);
          }
        }
      }
    }
  }

  lemma BeforeIsAsymmetric<T>(a: Entry<T>, b: Entry<T>)
    ensures !(Before(a, b) && Before(b, a))
  {
    LessIsAsymmetric(a.name, b.name);
  }

  /** Sorting puts the entries in order and keeps every one of them. */
  lemma {:induction false} RankedIsInOrder<T>(s: seq<Entry<T>>)
    ensures InOrder(Ranked(s)) && multiset(Ranked(s)) == multiset(s)
  {
    hide InOrder;
    if s == [] {
      assert InOrder<T>([]) by {
        Nothing<T>();
      }
    } else {
      RankedIsInOrder(s[..|s| - 1]);
      InsertKeepsOrder(Ranked(s[..|s| - 1]), s[|s| - 1]);
    }
  }

  lemma Nothing<T>()
    ensures InOrder<T>([])
  {
  }

  lemma InsertLast<T>(s: seq<Entry<T>>, e: Entry<T>)
    requires s == [] || !Before(e, s[|s| - 1])
    ensures Insert(s, e) == s + [e]
  {
  }

  lemma RankedSnoc<T>(s: seq<Entry<T>>)
    requires s != []
    ensures Ranked(s) == Insert(Ranked(s[..|s| - 1]), s[|s| - 1])
  {
  }

  lemma PrefixInOrder<T>(s: seq<Entry<T>>)
    requires InOrder(s) && s != []
    ensures InOrder(s[..|s| - 1])
    ensures |s| > 1 ==> !Before(s[|s| - 1], s[..|s| - 1][|s| - 2])
  {
    hide Before;
    var init := s[..|s| - 1];
    forall i, j | 0 <= i < j < |init|
      ensures !Before(init[j], init[i])
    {
      assert init[i] == s[i] && init[j] == s[j];
    }
  }

  lemma {:induction false} InOrderStays<T>(s: seq<Entry<T>>)
    requires InOrder(s)
    ensures Ranked(s) == s
  {
    if s != [] {
      hide *;
      var n := |s| - 1;
      PrefixInOrder(s);
      InOrderStays(s[..n]);
      RankedSnoc(s);
      InsertLast(s[..n], s[n]);
      assert s == s[..n] + [s[n]];
    }
  }

  // ----- sorting does not look at the items

  function MapItems<S, T>(s: seq<Entry<S>>, f: S -> T): (r: seq<Entry<T>>)
    ensures |r| == |s|
  {
    seq(|s|, i requires 0 <= i < |s| => Entry(s[i].score, s[i].name, f(s[i].item)))
  }

  lemma MapItemsSnoc<S, T>(s: seq<Entry<S>>, e: Entry<S>, f: S -> T)
    ensures MapItems(s + [e], f) == MapItems(s, f) + [Entry(e.score, e.name, f(e.item))]
  {
  }

  lemma {:induction false} InsertMaps<S, T>(s: seq<Entry<S>>, e: Entry<S>, f: S -> T)
    ensures MapItems(Insert(s, e), f) == Insert(MapItems(s, f), Entry(e.score, e.name, f(e.item)))
  {
    hide MapItems, Before;
    if s == [] {
      assert [] + [e] == [e];
      MapItemsSnoc([], e, f);
      assert MapItems([], f) == [] by {
        NoItems(f);
      }
    } else {
      var n := |s| - 1;
      assert s == s[..n] + [s[n]];
      MapItemsSnoc(s[..n], s[n], f);
      SameOrder(e, s[n], f);
      if Before(e, s[n]) {
        InsertMaps(s[..n], e, f);
        MapItemsSnoc(Insert(s[..n], e), s[n], f);
        assert MapItems(s, f)[..n] == MapItems(s[..n], f);
      } else {
        MapItemsSnoc(s, e, f);
      }
    }
  }

  lemma NoItems<S, T>(f: S -> T)
    ensures MapItems([], f) == []
  {
  }

  lemma SameOrder<S, T>(a: Entry<S>, b: Entry<S>, f: S -> T)
    ensures Before(a, b) == Before(Entry(a.score, a.name, f(a.item)), Entry(b.score, b.name, f(b.item)))
  {
  }

  /** Sorting commutes with any change of the items. */
  lemma {:induction false} RankedMaps<S, T>(s: seq<Entry<S>>, f: S -> T)
    ensures MapItems(Ranked(s), f) == Ranked(MapItems(s, f))
  {
    if s == [] {
      NoItems(f);
    } else {
      hide MapItems;
      var n := |s| - 1;
      assert s == s[..n] + [s[n]];
      MapItemsSnoc(s[..n], s[n], f);
      RankedMaps(s[..n], f);
      InsertMaps(Ranked(s[..n]), s[n], f);
      assert MapItems(s, f)[..n] == MapItems(s[..n], f);
    }
  }
}
