/** Filtering and ranking (the second half of `processMarketData`): only markets
    whose status is "active" stay, and they are ordered by dollar volume, highest
    first, a missing volume counting as 0. `Array.prototype.sort` is stable, so the
    reference sort here is a stable insertion sort. */
module Ranking {
  import opened Markets

  predicate IsActive(m: Market)
  {
    m.raw.status == Some("active")
  }

  /** `filter(market => market.status === 'active')`. */
  function ActiveOnly(s: seq<Market>): seq<Market>
  {
    if s == [] then []
    else (if IsActive(s[0]) then [s[0]] else []) + ActiveOnly(s[1..])
  }

  /** `dollar_volume || 0`. */
  function Volume(m: Market): int
  {
    if Truthy(m.raw.dollarVolume) then m.raw.dollarVolume.value else 0
  }

  /** Highest volume first. */
  predicate SortedByVolume(s: seq<Market>)
  {
    forall i, j :: 0 <= i < j < |s| ==> Volume(s[i]) >= Volume(s[j])
  }

  /** Places `x` in front of the first entry whose volume is not above its own. */
  function Insert(x: Market, t: seq<Market>): seq<Market>
  {
    if t == [] || Volume(t[0]) <= Volume(x) then [x] + t
    else [t[0]] + Insert(x, t[1..])
  }

  /** `sort((a, b) => (b.dollar_volume || 0) - (a.dollar_volume || 0))`. */
  function RankByVolume(s: seq<Market>): seq<Market>
  {
    if s == [] then [] else Insert(s[0], RankByVolume(s[1..]))
  }

  /** The entries of `s` with volume `v`, in order. */
  function WithVolume(s: seq<Market>, v: int): seq<Market>
  {
    if s == [] then []
    else (if Volume(s[0]) == v then [s[0]] else []) + WithVolume(s[1..], v)
  }

  // ----- the filter -----

  /** The filter keeps every active market as often as it occurs, and nothing else. */
  lemma {:induction false} ActiveOnlyKeepsExactlyActive(s: seq<Market>, x: Market)
    ensures multiset(ActiveOnly(s))[x] == if IsActive(x) then multiset(s)[x] else 0
  {
    if s != [] {
      ActiveOnlyKeepsExactlyActive(s[1..], x);
      assert s == [s[0]] + s[1..];
    }
  }

  /** At most as many active markets as markets. */
  lemma {:induction false} ActiveOnlyLength(s: seq<Market>)
    ensures |ActiveOnly(s)| <= |s|
  {
    if s != [] {
      ActiveOnlyLength(s[1..]);
    }
  }

  lemma {:induction false} ActiveOnlyIsActive(s: seq<Market>)
    ensures forall m :: m in ActiveOnly(s) ==> IsActive(m)
  {
    if s != [] {
      ActiveOnlyIsActive(s[1..]);
    }
  }

  /** The filter keeps the markets it keeps in their original order. */
  lemma {:induction false} ActiveOnlyKeepsOrder(s: seq<Market>)
    ensures IsSubsequence(ActiveOnly(s), s)
  {
    if s != [] {
      var a := ActiveOnly(s[1..]);
      ActiveOnlyKeepsOrder(s[1..]);
      if IsActive(s[0]) {
        assert ActiveOnly(s) == [s[0]] + a;
        assert ([s[0]] + a)[1..] == a;
      } else {
        assert ActiveOnly(s) == [] + a == a;
        if a != [] {
          ActiveOnlyIsActive(s[1..]);
          assert a[0] in a;
          assert a[0] != s[0];
        }
      }
    }
  }

  lemma {:induction false} ActiveOnlyKeepsDistinct(s: seq<Market>)
    requires Distinct(s)
    ensures Distinct(ActiveOnly(s)) && Ids(ActiveOnly(s)) <= Ids(s)
  {
    if s != [] {
      assert s == [s[0]] + s[1..];
      DistinctCons(s[0], s[1..]);
      ActiveOnlyKeepsDistinct(s[1..]);
      IdsAppend([s[0]], s[1..]);
      assert Ids([s[0]]) == {s[0].marketId};
      if IsActive(s[0]) {
        DistinctCons(s[0], ActiveOnly(s[1..]));
        IdsAppend([s[0]], ActiveOnly(s[1..]));
      } else {
        assert ActiveOnly(s) == ActiveOnly(s[1..]);
      }
    }
  }

  /** Filtering keeps the relative order of the volume classes. */
  lemma {:induction false} ActiveOnlyWithVolume(s: seq<Market>, v: int)
    ensures WithVolume(ActiveOnly(s), v) == ActiveOnly(WithVolume(s, v))
  {
    if s != [] {
      ActiveOnlyWithVolume(s[1..], v);
      var h := if IsActive(s[0]) then [s[0]] else [];
      WithVolumeAppend(h, ActiveOnly(s[1..]), v);
      var w := if Volume(s[0]) == v then [s[0]] else [];
      assert WithVolume(s, v) == w + WithVolume(s[1..], v);
      ActiveOnlyAppend(w, WithVolume(s[1..], v));
    }
  }

  lemma {:induction false} WithVolumeAppend(a: seq<Market>, b: seq<Market>, v: int)
    ensures WithVolume(a + b, v) == WithVolume(a, v) + WithVolume(b, v)
  {
    if a != [] {
      assert (a + b)[0] == a[0] && (a + b)[1..] == a[1..] + b;
      WithVolumeAppend(a[1..], b, v);
    } else {
      assert a + b == b;
    }
  }

  lemma {:induction false} ActiveOnlyAppend(a: seq<Market>, b: seq<Market>)
    ensures ActiveOnly(a + b) == ActiveOnly(a) + ActiveOnly(b)
  {
    if a != [] {
      assert (a + b)[0] == a[0] && (a + b)[1..] == a[1..] + b;
      ActiveOnlyAppend(a[1..], b);
    } else {
      assert a + b == b;
    }
  }

  // ----- the sort -----

  lemma {:induction false} InsertPermutes(x: Market, t: seq<Market>)
    ensures multiset(Insert(x, t)) == multiset(t) + multiset{x}
  {
    if t != [] && Volume(t[0]) > Volume(x) {
      InsertPermutes(x, t[1..]);
      assert t == [t[0]] + t[1..];
    }
  }

  lemma {:induction false} InsertSorted(x: Market, t: seq<Market>)
    requires SortedByVolume(t)
    ensures SortedByVolume(Insert(x, t))
    ensures Insert(x, t)[0] == x || (t != [] && Insert(x, t)[0] == t[0])
  {
    if t != [] && Volume(t[0]) > Volume(x) {
      var rest := Insert(x, t[1..]);
      InsertSorted(x, t[1..]);
      assert Volume(t[0]) >= Volume(rest[0]) by {
        if rest[0] != x {
          assert rest[0] == t[1];
        }
      }
      var r := [t[0]] + rest;
      forall i, j | 0 <= i < j < |r| ensures Volume(r[i]) >= Volume(r[j]) {
        assert r[j] == rest[j - 1];
        if i > 0 {
          assert r[i] == rest[i - 1];
        } else if j > 1 {
          assert Volume(rest[0]) >= Volume(rest[j - 1]);
        }
      }
    }
  }

  lemma {:induction false} InsertWithVolume(x: Market, t: seq<Market>, v: int)
    ensures WithVolume(Insert(x, t), v) == WithVolume([x] + t, v)
  {
    if t != [] && Volume(t[0]) > Volume(x) {
      InsertWithVolume(x, t[1..], v);
      assert ([t[0]] + Insert(x, t[1..]))[1..] == Insert(x, t[1..]);
      assert ([x] + t[1..])[1..] == t[1..];
      assert ([x] + t)[1..] == t;
      assert t[1..] == t[1..];
    }
  }

  /** The ranking is a permutation of its input. */
  lemma {:induction false} RankPermutes(s: seq<Market>)
    ensures multiset(RankByVolume(s)) == multiset(s)
  {
    if s != [] {
      RankPermutes(s[1..]);
      InsertPermutes(s[0], RankByVolume(s[1..]));
      assert s == [s[0]] + s[1..];
      assert multiset(s) == multiset(s[1..]) + multiset{s[0]};
    }
  }

  /** The ranking is ordered by volume, highest first. */
  lemma {:induction false} RankIsSorted(s: seq<Market>)
    ensures SortedByVolume(RankByVolume(s))
  {
    if s != [] {
      RankIsSorted(s[1..]);
      InsertSorted(s[0], RankByVolume(s[1..]));
    }
  }

  /** The ranking is stable: the markets of any one volume appear in input order. */
  lemma {:induction false} RankIsStable(s: seq<Market>, v: int)
    ensures WithVolume(RankByVolume(s), v) == WithVolume(s, v)
  {
    if s != [] {
      RankIsStable(s[1..], v);
      InsertWithVolume(s[0], RankByVolume(s[1..]), v);
      assert ([s[0]] + RankByVolume(s[1..]))[1..] == RankByVolume(s[1..]);
    }
  }

  lemma {:induction false} InsertKeepsDistinct(x: Market, t: seq<Market>)
    requires Distinct(t) && x.marketId !in Ids(t)
    ensures Distinct(Insert(x, t)) && Ids(Insert(x, t)) == Ids(t) + {x.marketId}
  {
    assert t != [] ==> t == [t[0]] + t[1..];
    if t == [] || Volume(t[0]) <= Volume(x) {
      DistinctCons(x, t);
      IdsAppend([x], t);
      assert Ids([x]) == {x.marketId};
    } else {
      DistinctCons(t[0], t[1..]);
      IdsAppend([t[0]], t[1..]);
      assert Ids([t[0]]) == {t[0].marketId};
      InsertKeepsDistinct(x, t[1..]);
      DistinctCons(t[0], Insert(x, t[1..]));
      IdsAppend([t[0]], Insert(x, t[1..]));
    }
  }

  lemma {:induction false} RankKeepsDistinct(s: seq<Market>)
    requires Distinct(s)
    ensures Distinct(RankByVolume(s)) && Ids(RankByVolume(s)) == Ids(s)
  {
    if s != [] {
      assert s == [s[0]] + s[1..];
      DistinctCons(s[0], s[1..]);
      IdsAppend([s[0]], s[1..]);
      assert Ids([s[0]]) == {s[0].marketId};
      RankKeepsDistinct(s[1..]);
      InsertKeepsDistinct(s[0], RankByVolume(s[1..]));
    }
  }

  /** The ranked list of a load: exactly the active markets of the aggregated
      collection, all active, highest volume first, equal volumes in aggregation
      order, and still without a repeated id. */
  lemma RankedIsActiveSortedStable(agg: seq<Market>)
    requires Distinct(agg)
    ensures forall m :: m in RankByVolume(ActiveOnly(agg)) ==> IsActive(m)
    ensures forall x :: multiset(RankByVolume(ActiveOnly(agg)))[x] == if IsActive(x) then multiset(agg)[x] else 0
    ensures SortedByVolume(RankByVolume(ActiveOnly(agg)))
    ensures forall v :: WithVolume(RankByVolume(ActiveOnly(agg)), v) == ActiveOnly(WithVolume(agg, v))
    ensures Distinct(RankByVolume(ActiveOnly(agg)))
  {
    var act := ActiveOnly(agg);
    RankPermutes(act);
    RankIsSorted(act);
    ActiveOnlyIsActive(agg);
    forall x ensures multiset(RankByVolume(act))[x] == if IsActive(x) then multiset(agg)[x] else 0 {
      ActiveOnlyKeepsExactlyActive(agg, x);
    }
    forall v ensures WithVolume(RankByVolume(act), v) == ActiveOnly(WithVolume(agg, v)) {
      RankIsStable(act, v);
      ActiveOnlyWithVolume(agg, v);
    }
    ActiveOnlyKeepsDistinct(agg);
    RankKeepsDistinct(act);
  }
}
