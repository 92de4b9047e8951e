/** `balanceCategories`: the first page is rebuilt from the ranked list. A first
    pass walks the whole list and admits a market while its category is under its
    cap; a second pass then tops the page up to 25 with the markets not yet on it,
    in ranked order. The page replaces the first 25 entries of the list, and the
    rest of the list (from index 25 on) is kept as it was, even when the first
    pass took some of its markets onto the page. */
module Balancing {
  import opened Markets
  import opened Categories
  import opened Paging

  /** The cap category of a market (`getCategoryKey(market.eventCategory)`). */
  function CategoryOf(m: Market): CategoryKey
  {
    GetCategoryKey(m.eventCategory)
  }

  /** `categoryCounts[k]` for the markets admitted so far. */
  function CountIn(cat: Market -> CategoryKey, s: seq<Market>, k: CategoryKey): nat
  {
    if s == [] then 0
    else CountIn(cat, s[..|s| - 1], k) + (if cat(s[|s| - 1]) == k then 1 else 0)
  }

  /** The first pass takes `m` when its category is still under its cap. */
  predicate Admits(cat: Market -> CategoryKey, acc: seq<Market>, m: Market)
  {
    CountIn(cat, acc, cat(m)) < Limit(cat(m))
  }

  /** The first pass: what `balancedMarkets` holds after walking `s`, starting from `acc`. */
  function FirstPass(cat: Market -> CategoryKey, acc: seq<Market>, s: seq<Market>): seq<Market>
    decreases |s|
  {
    if s == [] then acc
    else if Admits(cat, acc, s[0]) then FirstPass(cat, acc + [s[0]], s[1..])
    else FirstPass(cat, acc, s[1..])
  }

  /** The markets of `s` the first pass passes over, in order. */
  function Deferred(cat: Market -> CategoryKey, acc: seq<Market>, s: seq<Market>): seq<Market>
    decreases |s|
  {
    if s == [] then []
    else if Admits(cat, acc, s[0]) then Deferred(cat, acc + [s[0]], s[1..])
    else [s[0]] + Deferred(cat, acc, s[1..])
  }

  /** The second pass: stop once the page holds 25 markets; otherwise append each
      market whose id is not on the page yet. */
  function Fill(b: seq<Market>, s: seq<Market>): seq<Market>
    decreases |s|
  {
    if s == [] || |b| >= MarketsPerPage then b
    else if s[0].marketId in Ids(b) then Fill(b, s[1..])
    else Fill(b + [s[0]], s[1..])
  }

  /** `s.slice(n)`. */
  function Drop<T>(s: seq<T>, n: nat): seq<T>
  {
    if |s| <= n then [] else s[n..]
  }

  /** The balanced first page built from the ranked list. */
  function BalancedHead(cat: Market -> CategoryKey, s: seq<Market>): seq<Market>
  {
    Fill(FirstPass(cat, [], s), s)
  }

  /** The list after balancing: `[...balancedMarkets, ...allMarkets.slice(25)]`. */
  function Balance(cat: Market -> CategoryKey, s: seq<Market>): seq<Market>
  {
    BalancedHead(cat, s) + Drop(s, MarketsPerPage)
  }

  /** The markets of `s` whose id is not in `ids`, in order. */
  function NotIn(s: seq<Market>, ids: set<string>): seq<Market>
  {
    if s == [] then []
    else (if s[0].marketId in ids then [] else [s[0]]) + NotIn(s[1..], ids)
  }

  /** The first `n` entries of `s`, or all of them. */
  function Take(s: seq<Market>, n: int): seq<Market>
  {
    s[..if n <= 0 then 0 else Min(n, |s|)]
  }

  /** The markets of `s` whose category is `k`, in order. */
  function OfCategory(cat: Market -> CategoryKey, s: seq<Market>, k: CategoryKey): seq<Market>
  {
    if s == [] then []
    else OfCategory(cat, s[..|s| - 1], k) + (if cat(s[|s| - 1]) == k then [s[|s| - 1]] else [])
  }

  /** An independent reading of the first pass: keep each market of `s` when fewer
      than its category's cap of markets of that category come before it. */
  function TopOfEachCategory(cat: Market -> CategoryKey, s: seq<Market>): seq<Market>
  {
    if s == [] then []
    else
      var init, m := s[..|s| - 1], s[|s| - 1];
      TopOfEachCategory(cat, init) + (if CountIn(cat, init, cat(m)) < Limit(cat(m)) then [m] else [])
  }

  /** Sum of the caps of all categories. */
  function CapTotal(): nat
  {
    Limit(Politics) + Limit(Economics) + Limit(Sports) + Limit(Entertainment) +
    Limit(World) + Limit(Technology) + Limit(Other)
  }

  /** The number of markets of `s`, counted category by category. */
  function CountTotal(cat: Market -> CategoryKey, s: seq<Market>): nat
  {
    CountIn(cat, s, Politics) + CountIn(cat, s, Economics) + CountIn(cat, s, Sports) + CountIn(cat, s, Entertainment) +
    CountIn(cat, s, World) + CountIn(cat, s, Technology) + CountIn(cat, s, Other)
  }

  // ----- one step of each pass -----

  /** One market of the first pass: admitted or passed over. */
  lemma FirstPassStep(cat: Market -> CategoryKey, acc: seq<Market>, s: seq<Market>)
    requires s != []
    ensures FirstPass(cat, acc, s) == FirstPass(cat, if Admits(cat, acc, s[0]) then acc + [s[0]] else acc, s[1..])
  {
  }

  /** One market of the second pass, while the page has room. */
  lemma FillStep(b: seq<Market>, s: seq<Market>)
    requires s != [] && |b| < MarketsPerPage
    ensures Fill(b, s) == Fill(if s[0].marketId in Ids(b) then b else b + [s[0]], s[1..])
  {
  }

  /** The second pass stops at the end of the list or on a full page. */
  lemma FillDone(b: seq<Market>, s: seq<Market>)
    requires s == [] || |b| >= MarketsPerPage
    ensures Fill(b, s) == b
  {
  }

  // ----- counting -----

  lemma CountInSnoc(cat: Market -> CategoryKey, s: seq<Market>, m: Market, k: CategoryKey)
    ensures CountIn(cat, s + [m], k) == CountIn(cat, s, k) + if cat(m) == k then 1 else 0
  {
    assert (s + [m])[..|s|] == s;
  }

  /** The caps add up to exactly one page. */
  lemma CapsFillOnePage()
    ensures CapTotal() == MarketsPerPage
  {
    LimitIsTableEntry(Politics);
    LimitIsTableEntry(Economics);
    LimitIsTableEntry(Sports);
    LimitIsTableEntry(Entertainment);
    LimitIsTableEntry(World);
    LimitIsTableEntry(Technology);
    LimitIsTableEntry(Other);
  }

  /** Every market is counted under exactly one category. */
  lemma {:induction false} CountsAddUp(cat: Market -> CategoryKey, s: seq<Market>)
    ensures CountTotal(cat, s) == |s|
  {
    if s != [] {
      CountsAddUp(cat, s[..|s| - 1]);
      match cat(s[|s| - 1])
      case Politics =>
      case Economics =>
      case Sports =>
      case Entertainment =>
      case World =>
      case Technology =>
      case Other =>
    }
  }

  // ----- the first pass -----

  lemma {:induction false} FirstPassExtends(cat: Market -> CategoryKey, acc: seq<Market>, s: seq<Market>)
    ensures |acc| <= |FirstPass(cat, acc, s)| && FirstPass(cat, acc, s)[..|acc|] == acc
    decreases |s|
  {
    if s != [] {
      if Admits(cat, acc, s[0]) {
        FirstPassExtends(cat, acc + [s[0]], s[1..]);
        assert (acc + [s[0]])[..|acc|] == acc;
      } else {
        FirstPassExtends(cat, acc, s[1..]);
      }
    }
  }

  /** The first pass splits its input: each market is admitted or deferred. */
  lemma {:induction false} FirstPassSplits(cat: Market -> CategoryKey, acc: seq<Market>, s: seq<Market>)
    ensures multiset(FirstPass(cat, acc, s)) + multiset(Deferred(cat, acc, s)) == multiset(acc) + multiset(s)
    decreases |s|
  {
    if s != [] {
      assert s == [s[0]] + s[1..];
      if Admits(cat, acc, s[0]) {
        FirstPassSplits(cat, acc + [s[0]], s[1..]);
      } else {
        FirstPassSplits(cat, acc, s[1..]);
        var f, d := FirstPass(cat, acc, s[1..]), Deferred(cat, acc, s[1..]);
        assert FirstPass(cat, acc, s) == f;
        assert multiset(Deferred(cat, acc, s)) == multiset{s[0]} + multiset(d);
        assert multiset(s) == multiset{s[0]} + multiset(s[1..]);
        assert multiset(f) + multiset(d) == multiset(acc) + multiset(s[1..]);
        assert multiset(f) + (multiset{s[0]} + multiset(d)) == (multiset(f) + multiset(d)) + multiset{s[0]};
      }
    }
  }

  lemma {:induction false} OfCategoryCount(cat: Market -> CategoryKey, s: seq<Market>, k: CategoryKey)
    ensures |OfCategory(cat, s, k)| == CountIn(cat, s, k)
  {
    if s != [] {
      OfCategoryCount(cat, s[..|s| - 1], k);
    }
  }

  lemma TopSnoc(cat: Market -> CategoryKey, p: seq<Market>, m: Market)
    ensures TopOfEachCategory(cat, p + [m]) ==
      TopOfEachCategory(cat, p) + if CountIn(cat, p, cat(m)) < Limit(cat(m)) then [m] else []
  {
    assert (p + [m])[..|p + [m]| - 1] == p;
  }

  lemma OfCategorySnoc(cat: Market -> CategoryKey, p: seq<Market>, m: Market, k: CategoryKey)
    ensures OfCategory(cat, p + [m], k) == OfCategory(cat, p, k) + if cat(m) == k then [m] else []
  {
    assert (p + [m])[..|p + [m]| - 1] == p;
  }

  lemma {:induction false} TopCounts(cat: Market -> CategoryKey, s: seq<Market>, k: CategoryKey)
    ensures CountIn(cat, TopOfEachCategory(cat, s), k) == Min(CountIn(cat, s, k), Limit(k))
  {
    if s != [] {
      var p, m := s[..|s| - 1], s[|s| - 1];
      assert s == p + [m];
      TopCounts(cat, p, k);
      TopCountsStep(cat, p, m, k);
    }
  }

  lemma TopCountsStep(cat: Market -> CategoryKey, p: seq<Market>, m: Market, k: CategoryKey)
    requires CountIn(cat, TopOfEachCategory(cat, p), k) == Min(CountIn(cat, p, k), Limit(k))
    ensures CountIn(cat, TopOfEachCategory(cat, p + [m]), k) == Min(CountIn(cat, p + [m], k), Limit(k))
  {
    var t := TopOfEachCategory(cat, p);
    TopSnoc(cat, p, m);
    CountInSnoc(cat, p, m, k);
    if CountIn(cat, p, cat(m)) < Limit(cat(m)) {
      CountInSnoc(cat, t, m, k);
    } else {
      assert t + [] == t;
    }
  }

  lemma {:induction false} FirstPassFromTop(cat: Market -> CategoryKey, p: seq<Market>, s: seq<Market>)
    ensures FirstPass(cat, TopOfEachCategory(cat, p), s) == TopOfEachCategory(cat, p + s)
    decreases |s|
  {
    if s == [] {
      assert p + s == p;
    } else {
      FirstPassFromTop(cat, p + [s[0]], s[1..]);
      FromTopStep(cat, p, s);
    }
  }

  lemma FromTopStep(cat: Market -> CategoryKey, p: seq<Market>, s: seq<Market>)
    requires s != []
    requires FirstPass(cat, TopOfEachCategory(cat, p + [s[0]]), s[1..]) == TopOfEachCategory(cat, (p + [s[0]]) + s[1..])
    ensures FirstPass(cat, TopOfEachCategory(cat, p), s) == TopOfEachCategory(cat, p + s)
  {
    var t := TopOfEachCategory(cat, p);
    AdmitsOnTop(cat, p, s[0]);
    FirstPassStep(cat, t, s);
    AppendCons(p, s);
  }

  /** The first pass, started from the top markets of `p`, takes the next market
      exactly when `TopOfEachCategory` keeps it. */
  lemma AdmitsOnTop(cat: Market -> CategoryKey, p: seq<Market>, x: Market)
    ensures (if Admits(cat, TopOfEachCategory(cat, p), x) then TopOfEachCategory(cat, p) + [x] else TopOfEachCategory(cat, p))
      == TopOfEachCategory(cat, p + [x])
  {
    TopCounts(cat, p, cat(x));
    TopSnoc(cat, p, x);
    if CountIn(cat, p, cat(x)) >= Limit(cat(x)) {
      assert TopOfEachCategory(cat, p) + [] == TopOfEachCategory(cat, p);
    }
  }

  lemma AppendCons(p: seq<Market>, s: seq<Market>)
    requires s != []
    ensures (p + [s[0]]) + s[1..] == p + s
  {
  }

  /** The first pass is the independent reading `TopOfEachCategory`. */
  lemma FirstPassIsTopOfEachCategory(cat: Market -> CategoryKey, s: seq<Market>)
    ensures FirstPass(cat, [], s) == TopOfEachCategory(cat, s)
  {
    FirstPassFromTop(cat, [], s);
    assert [] + s == s;
  }

  lemma {:induction false} TopKeepsOrder(cat: Market -> CategoryKey, s: seq<Market>)
    ensures IsSubsequence(TopOfEachCategory(cat, s), s)
  {
    if s != [] {
      var init, m := s[..|s| - 1], s[|s| - 1];
      assert s == init + [m];
      var t := TopOfEachCategory(cat, init);
      TopKeepsOrder(cat, init);
      if CountIn(cat, init, cat(m)) < Limit(cat(m)) {
        assert TopOfEachCategory(cat, s) == t + [m];
        SubsequenceSnocBoth(t, init, m);
      } else {
        assert TopOfEachCategory(cat, s) == t + [];
        assert t + [] == t;
        SubsequenceSnocRight(t, init, m);
      }
    }
  }

  lemma {:induction false} TopOfCategory(cat: Market -> CategoryKey, s: seq<Market>, k: CategoryKey)
    ensures OfCategory(cat, TopOfEachCategory(cat, s), k) == Take(OfCategory(cat, s, k), Limit(k))
  {
    if s != [] {
      var p, m := s[..|s| - 1], s[|s| - 1];
      assert s == p + [m];
      TopOfCategory(cat, p, k);
      TopOfCategoryStep(cat, p, m, k);
    }
  }

  lemma TopOfCategoryStep(cat: Market -> CategoryKey, p: seq<Market>, m: Market, k: CategoryKey)
    requires OfCategory(cat, TopOfEachCategory(cat, p), k) == Take(OfCategory(cat, p, k), Limit(k))
    ensures OfCategory(cat, TopOfEachCategory(cat, p + [m]), k) == Take(OfCategory(cat, p + [m], k), Limit(k))
  {
    var t, o := TopOfEachCategory(cat, p), OfCategory(cat, p, k);
    OfCategoryCount(cat, p, k);
    TopSnoc(cat, p, m);
    OfCategorySnoc(cat, p, m, k);
    TakeStep(o, m, Limit(k), cat(m) == k);
    if CountIn(cat, p, cat(m)) < Limit(cat(m)) {
      OfCategorySnoc(cat, t, m, k);
    } else {
      assert t + [] == t;
      assert Take(o, Limit(k)) + [] == Take(o, Limit(k));
    }
  }

  /** Taking `n` of a list with one more entry at the end. */
  lemma TakeStep(o: seq<Market>, m: Market, n: nat, b: bool)
    ensures Take(o + (if b then [m] else []), n) == Take(o, n) + if b && |o| < n then [m] else []
  {
    if b && |o| >= n {
      assert (o + [m])[..n] == o[..n];
    } else if !b {
      assert o + [] == o;
    }
  }

  /** Which markets the first pass admits: for every category, the first markets
      of that category in ranked order, as many as its cap allows; and they keep
      their ranked order. */
  lemma FirstPassTakesTopOfEachCategory(cat: Market -> CategoryKey, s: seq<Market>)
    ensures forall k :: OfCategory(cat, FirstPass(cat, [], s), k) == Take(OfCategory(cat, s, k), Limit(k))
    ensures IsSubsequence(FirstPass(cat, [], s), s)
  {
    FirstPassIsTopOfEachCategory(cat, s);
    forall k ensures OfCategory(cat, FirstPass(cat, [], s), k) == Take(OfCategory(cat, s, k), Limit(k)) {
      TopOfCategory(cat, s, k);
    }
    TopKeepsOrder(cat, s);
  }

  /** No category goes over its cap in the first pass. */
  lemma {:induction false} FirstPassKeepsCaps(cat: Market -> CategoryKey, acc: seq<Market>, s: seq<Market>)
    requires forall k :: CountIn(cat, acc, k) <= Limit(k)
    ensures forall k :: CountIn(cat, FirstPass(cat, acc, s), k) <= Limit(k)
    decreases |s|
  {
    if s != [] {
      if Admits(cat, acc, s[0]) {
        forall k ensures CountIn(cat, acc + [s[0]], k) <= Limit(k) {
          CountInSnoc(cat, acc, s[0], k);
        }
        FirstPassKeepsCaps(cat, acc + [s[0]], s[1..]);
      } else {
        FirstPassKeepsCaps(cat, acc, s[1..]);
      }
    }
  }

  lemma {:induction false} FirstPassCountsGrow(cat: Market -> CategoryKey, acc: seq<Market>, s: seq<Market>, k: CategoryKey)
    ensures CountIn(cat, FirstPass(cat, acc, s), k) >= CountIn(cat, acc, k)
    decreases |s|
  {
    if s != [] {
      if Admits(cat, acc, s[0]) {
        FirstPassCountsGrow(cat, acc + [s[0]], s[1..], k);
        CountInSnoc(cat, acc, s[0], k);
      } else {
        FirstPassCountsGrow(cat, acc, s[1..], k);
      }
    }
  }

  /** A market is deferred only when its category is already full. */
  lemma {:induction false} DeferredCategoriesAreFull(cat: Market -> CategoryKey, acc: seq<Market>, s: seq<Market>)
    ensures forall d :: d in Deferred(cat, acc, s) ==> CountIn(cat, FirstPass(cat, acc, s), cat(d)) >= Limit(cat(d))
    decreases |s|
  {
    if s != [] {
      if Admits(cat, acc, s[0]) {
        DeferredCategoriesAreFull(cat, acc + [s[0]], s[1..]);
      } else {
        DeferredCategoriesAreFull(cat, acc, s[1..]);
        FirstPassCountsGrow(cat, acc, s[1..], cat(s[0]));
      }
    }
  }

  lemma {:induction false} FirstPassIds(cat: Market -> CategoryKey, acc: seq<Market>, s: seq<Market>)
    ensures Ids(FirstPass(cat, acc, s)) <= Ids(acc) + Ids(s)
    decreases |s|
  {
    if s != [] {
      assert s == [s[0]] + s[1..];
      IdsAppend([s[0]], s[1..]);
      if Admits(cat, acc, s[0]) {
        FirstPassIds(cat, acc + [s[0]], s[1..]);
        IdsAppend(acc, [s[0]]);
      } else {
        FirstPassIds(cat, acc, s[1..]);
      }
    }
  }

  lemma DistinctSplit(a: seq<Market>, x: Market, b: seq<Market>)
    requires Distinct(a + [x] + b)
    ensures Distinct(a + b) && x.marketId !in Ids(a) && x.marketId !in Ids(b)
  {
    var s := a + [x] + b;
    var t := a + b;
    forall i, j | 0 <= i < j < |t| ensures t[i].marketId != t[j].marketId {
      var i' := if i < |a| then i else i + 1;
      var j' := if j < |a| then j else j + 1;
      assert t[i] == s[i'] && t[j] == s[j'];
    }
    forall m | m in a ensures m.marketId != x.marketId {
      var i :| 0 <= i < |a| && a[i] == m;
      assert s[i] == m && s[|a|] == x;
    }
    forall m | m in b ensures m.marketId != x.marketId {
      var i :| 0 <= i < |b| && b[i] == m;
      assert s[|a| + 1 + i] == m && s[|a|] == x;
    }
  }

  /** The deferred markets are exactly those whose id the first pass did not admit. */
  lemma {:induction false} DeferredAreNotAdmitted(cat: Market -> CategoryKey, acc: seq<Market>, s: seq<Market>)
    requires Distinct(acc + s)
    ensures NotIn(s, Ids(FirstPass(cat, acc, s))) == Deferred(cat, acc, s)
    decreases |s|
  {
    if s != [] {
      var x, rest := s[0], s[1..];
      assert acc + s == acc + [x] + rest;
      assert (acc + [x]) + rest == acc + s;
      if Admits(cat, acc, x) {
        DeferredAreNotAdmitted(cat, acc + [x], rest);
        FirstPassExtends(cat, acc + [x], rest);
        var f := FirstPass(cat, acc + [x], rest);
        assert f[|acc|] == x;
        assert x in f;
      } else {
        DistinctSplit(acc, x, rest);
        DeferredAreNotAdmitted(cat, acc, rest);
        FirstPassIds(cat, acc, rest);
      }
    }
  }

  // ----- the second pass -----

  lemma {:induction false} NotInIgnoresAbsentId(s: seq<Market>, ids: set<string>, id: string)
    requires id !in Ids(s)
    ensures NotIn(s, ids + {id}) == NotIn(s, ids)
  {
    if s != [] {
      assert s == [s[0]] + s[1..];
      IdsAppend([s[0]], s[1..]);
      assert Ids([s[0]]) == {s[0].marketId};
      NotInIgnoresAbsentId(s[1..], ids, id);
    }
  }

  /** The second pass appends the first markets of `s` not on the page yet,
      as many as the page has room for. */
  lemma {:induction false} FillTakesMissing(b: seq<Market>, s: seq<Market>)
    requires Distinct(s)
    ensures Fill(b, s) == b + Take(NotIn(s, Ids(b)), MarketsPerPage - |b|)
    decreases |s|
  {
    if s == [] || |b| >= MarketsPerPage {
      assert b + [] == b;
    } else {
      assert s == [s[0]] + s[1..];
      DistinctCons(s[0], s[1..]);
      if s[0].marketId in Ids(b) {
        FillTakesMissing(b, s[1..]);
      } else {
        FillTakesMissing(b + [s[0]], s[1..]);
        FillAppendsNew(b, s);
      }
    }
  }

  /** The step of the second pass that appends a market not on the page yet. */
  lemma FillAppendsNew(b: seq<Market>, s: seq<Market>)
    requires s != [] && |b| < MarketsPerPage && s[0].marketId !in Ids(b) && s[0].marketId !in Ids(s[1..])
    requires Fill(b + [s[0]], s[1..]) == (b + [s[0]]) + Take(NotIn(s[1..], Ids(b + [s[0]])), MarketsPerPage - |b + [s[0]]|)
    ensures Fill(b, s) == b + Take(NotIn(s, Ids(b)), MarketsPerPage - |b|)
  {
    var x, rest := s[0], s[1..];
    var n := MarketsPerPage - |b|;
    AbsentIdJoins(b, x);
    NotInIgnoresAbsentId(rest, Ids(b), x.marketId);
    var r := NotIn(rest, Ids(b));
    assert NotIn(s, Ids(b)) == [x] + r;
    TakeCons(x, r, n);
    calc {
      Fill(b, s);
      Fill(b + [x], rest);
      (b + [x]) + Take(r, n - 1);
      { AppendAssoc(b, [x], Take(r, n - 1)); }
      b + ([x] + Take(r, n - 1));
      b + Take(NotIn(s, Ids(b)), n);
    }
  }

  lemma AbsentIdJoins(b: seq<Market>, x: Market)
    ensures Ids(b + [x]) == Ids(b) + {x.marketId}
  {
    IdsAppend(b, [x]);
    assert Ids([x]) == {x.marketId};
  }

  lemma AppendAssoc(a: seq<Market>, b: seq<Market>, c: seq<Market>)
    ensures (a + b) + c == a + (b + c)
  {
  }

  lemma TakeCons(x: Market, r: seq<Market>, n: int)
    requires n >= 1
    ensures Take([x] + r, n) == [x] + Take(r, n - 1)
  {
  }

  // ----- the balanced page -----

  /** The first pass admits at most one page of markets: the caps add up to 25. */
  lemma AdmittedFitOnePage(cat: Market -> CategoryKey, s: seq<Market>)
    ensures |FirstPass(cat, [], s)| <= MarketsPerPage
  {
    FirstPassKeepsCaps(cat, [], s);
    CountsAddUp(cat, FirstPass(cat, [], s));
    CapsFillOnePage();
  }

  /** The balanced page is the first-pass markets followed by as many of the
      passed-over markets, in ranked order, as fit up to 25. */
  lemma HeadIsAdmittedThenDeferred(cat: Market -> CategoryKey, s: seq<Market>)
    requires Distinct(s)
    ensures |FirstPass(cat, [], s)| <= MarketsPerPage
    ensures BalancedHead(cat, s) ==
      FirstPass(cat, [], s) + Deferred(cat, [], s)[..Min(MarketsPerPage - |FirstPass(cat, [], s)|, |Deferred(cat, [], s)|)]
    ensures |FirstPass(cat, [], s)| + |Deferred(cat, [], s)| == |s|
    ensures |BalancedHead(cat, s)| == Min(MarketsPerPage, |s|)
  {
    AdmittedFitOnePage(cat, s);
    SplitLength(cat, s);
    HeadTakesDeferred(cat, s);
    TakeWhatFits(BalancedHead(cat, s), FirstPass(cat, [], s), Deferred(cat, [], s), |s|);
  }

  lemma TakeWhatFits(h: seq<Market>, a: seq<Market>, d: seq<Market>, n: int)
    requires |a| <= MarketsPerPage && |a| + |d| == n
    requires h == a + Take(d, MarketsPerPage - |a|)
    ensures h == a + d[..Min(MarketsPerPage - |a|, |d|)]
    ensures |h| == Min(MarketsPerPage, n)
  {
  }

  /** The shape of the balanced first page, for a list without repeated ids: the
      first-pass markets (the top markets of each category up to its cap, in
      ranked order, at most 25, every passed-over market's category full),
      followed by as many of the passed-over markets, in ranked order, as there
      is room for up to 25. */
  lemma BalancedHeadShape(cat: Market -> CategoryKey, s: seq<Market>)
    requires Distinct(s)
    ensures forall k :: OfCategory(cat, FirstPass(cat, [], s), k) == Take(OfCategory(cat, s, k), Limit(k))
    ensures IsSubsequence(FirstPass(cat, [], s), s)
    ensures |FirstPass(cat, [], s)| <= MarketsPerPage
    ensures forall k :: CountIn(cat, FirstPass(cat, [], s), k) <= Limit(k)
    ensures forall d :: d in Deferred(cat, [], s) ==>
      CountIn(cat, FirstPass(cat, [], s), cat(d)) >= Limit(cat(d))
    ensures multiset(FirstPass(cat, [], s)) + multiset(Deferred(cat, [], s)) == multiset(s)
    ensures BalancedHead(cat, s) ==
      FirstPass(cat, [], s) + Deferred(cat, [], s)[..Min(MarketsPerPage - |FirstPass(cat, [], s)|, |Deferred(cat, [], s)|)]
    ensures |BalancedHead(cat, s)| == Min(MarketsPerPage, |s|)
  {
    FirstPassTakesTopOfEachCategory(cat, s);
    AdmittedFitOnePage(cat, s);
    FirstPassKeepsCaps(cat, [], s);
    DeferredCategoriesAreFull(cat, [], s);
    FirstPassSplits(cat, [], s);
    HeadIsAdmittedThenDeferred(cat, s);
  }

  /** Balancing keeps the length of the list. */
  lemma BalanceKeepsLength(cat: Market -> CategoryKey, s: seq<Market>)
    requires Distinct(s)
    ensures |Balance(cat, s)| == |s|
  {
    HeadIsAdmittedThenDeferred(cat, s);
  }

  /** From index 25 on, the balanced list is the list as it was. */
  lemma BalanceKeepsTail(cat: Market -> CategoryKey, s: seq<Market>)
    requires Distinct(s)
    ensures Drop(Balance(cat, s), MarketsPerPage) == Drop(s, MarketsPerPage)
  {
    HeadIsAdmittedThenDeferred(cat, s);
    TailAfterHead(BalancedHead(cat, s), Drop(s, MarketsPerPage), s);
  }

  lemma TailAfterHead(h: seq<Market>, rest: seq<Market>, s: seq<Market>)
    requires |h| == Min(MarketsPerPage, |s|) && rest == Drop(s, MarketsPerPage)
    ensures Drop(h + rest, MarketsPerPage) == Drop(s, MarketsPerPage)
  {
    if |s| > MarketsPerPage {
      assert (h + rest)[|h|..] == rest;
    }
  }

  /** The first pass admits no id twice. */
  lemma {:induction false} FirstPassKeepsDistinct(cat: Market -> CategoryKey, acc: seq<Market>, s: seq<Market>)
    requires Distinct(acc + s)
    ensures Distinct(FirstPass(cat, acc, s))
    decreases |s|
  {
    if s == [] {
      assert acc + s == acc;
    } else {
      var x, rest := s[0], s[1..];
      assert acc + s == acc + [x] + rest;
      if Admits(cat, acc, x) {
        assert (acc + [x]) + rest == acc + s;
        FirstPassKeepsDistinct(cat, acc + [x], rest);
      } else {
        DistinctSplit(acc, x, rest);
        FirstPassKeepsDistinct(cat, acc, rest);
      }
    }
  }

  /** The second pass only appends markets whose id is not on the page yet. */
  lemma {:induction false} FillKeepsDistinct(b: seq<Market>, s: seq<Market>)
    requires Distinct(b)
    ensures Distinct(Fill(b, s))
    decreases |s|
  {
    if s != [] && |b| < MarketsPerPage {
      if s[0].marketId in Ids(b) {
        FillKeepsDistinct(b, s[1..]);
      } else {
        DistinctSnoc(b, s[0]);
        FillKeepsDistinct(b + [s[0]], s[1..]);
      }
    }
  }

  /** The balanced page shows no market id twice. */
  lemma BalancedHeadIsDistinct(cat: Market -> CategoryKey, s: seq<Market>)
    requires Distinct(s)
    ensures Distinct(BalancedHead(cat, s))
  {
    assert Distinct([] + s) by {
      assert [] + s == s;
    }
    FirstPassKeepsDistinct(cat, [], s);
    FillKeepsDistinct(FirstPass(cat, [], s), s);
  }

  /** A list of at most one page is rearranged, not changed: admitted markets
      first, then the passed-over ones, and the same markets as before. */
  lemma ShortListIsPermuted(cat: Market -> CategoryKey, s: seq<Market>)
    requires Distinct(s) && |s| <= MarketsPerPage
    ensures Balance(cat, s) == FirstPass(cat, [], s) + Deferred(cat, [], s)
    ensures multiset(Balance(cat, s)) == multiset(s)
  {
    ShortListOrder(cat, s);
    SplitPermutes(cat, s);
    SameMarkets(Balance(cat, s), FirstPass(cat, [], s) + Deferred(cat, [], s), s);
  }

  /** The first pass and its passed-over markets are a permutation of the input. */
  lemma SplitPermutes(cat: Market -> CategoryKey, s: seq<Market>)
    ensures multiset(FirstPass(cat, [], s)) + multiset(Deferred(cat, [], s)) == multiset(s)
    ensures multiset(FirstPass(cat, [], s) + Deferred(cat, [], s)) == multiset(s)
  {
    FirstPassSplits(cat, [], s);
    assert [] + s == s;
  }

  lemma SameMarkets(b: seq<Market>, x: seq<Market>, s: seq<Market>)
    requires b == x && multiset(x) == multiset(s)
    ensures multiset(b) == multiset(s)
  {
  }

  lemma ShortListOrder(cat: Market -> CategoryKey, s: seq<Market>)
    requires Distinct(s) && |s| <= MarketsPerPage
    ensures Balance(cat, s) == FirstPass(cat, [], s) + Deferred(cat, [], s)
  {
    ShortListKeepsNoTail(cat, s);
    ShortHeadTakesAll(cat, s);
  }

  lemma ShortHeadTakesAll(cat: Market -> CategoryKey, s: seq<Market>)
    requires Distinct(s) && |s| <= MarketsPerPage
    ensures BalancedHead(cat, s) == FirstPass(cat, [], s) + Deferred(cat, [], s)
  {
    assert Distinct([] + s) by {
      assert [] + s == s;
    }
    DeferredAreNotAdmitted(cat, [], s);
    SplitLength(cat, s);
    FillTakesAllMissing(FirstPass(cat, [], s), s, Deferred(cat, [], s));
  }

  /** When the markets missing from the page fit on it, the second pass appends
      all of them. */
  lemma FillTakesAllMissing(b: seq<Market>, s: seq<Market>, d: seq<Market>)
    requires Distinct(s) && NotIn(s, Ids(b)) == d && |b| + |d| <= MarketsPerPage
    ensures Fill(b, s) == b + d
  {
    FillTakesMissing(b, s);
    TakeAll(d, MarketsPerPage - |b|);
  }

  /** The balanced page is the first-pass markets, then the first passed-over
      markets up to 25. */
  lemma HeadTakesDeferred(cat: Market -> CategoryKey, s: seq<Market>)
    requires Distinct(s)
    ensures BalancedHead(cat, s) == FirstPass(cat, [], s) + Take(Deferred(cat, [], s), MarketsPerPage - |FirstPass(cat, [], s)|)
  {
    var a := FirstPass(cat, [], s);
    assert NotIn(s, Ids(a)) == Deferred(cat, [], s) by {
      assert [] + s == s;
      DeferredAreNotAdmitted(cat, [], s);
    }
    FillTakesMissing(a, s);
  }

  /** Every market is either admitted or passed over. */
  lemma SplitLength(cat: Market -> CategoryKey, s: seq<Market>)
    ensures |FirstPass(cat, [], s)| + |Deferred(cat, [], s)| == |s|
  {
    FirstPassSplits(cat, [], s);
    assert |multiset(FirstPass(cat, [], s)) + multiset(Deferred(cat, [], s))| == |multiset(s)|;
  }

  lemma TakeAll(d: seq<Market>, n: int)
    requires |d| <= n
    ensures Take(d, n) == d
  {
    assert d[..|d|] == d;
  }

  /** With at most one page there is no rest: the list is the balanced page. */
  lemma ShortListKeepsNoTail(cat: Market -> CategoryKey, s: seq<Market>)
    requires |s| <= MarketsPerPage
    ensures Balance(cat, s) == BalancedHead(cat, s)
  {
    assert BalancedHead(cat, s) + [] == BalancedHead(cat, s);
  }

  /** On a longer list a market from index 25 on that the first pass admits ends
      up twice in the balanced list: once on the first page and once in the
      untouched rest. So `balanceCategories` is not a permutation there. */
  lemma LateAdmissionDuplicated(cat: Market -> CategoryKey, s: seq<Market>, i: int)
    requires Distinct(s) && MarketsPerPage <= i < |s|
    requires s[i] in FirstPass(cat, [], s)
    ensures multiset(Balance(cat, s))[s[i]] == 2
  {
    AdmittedOnceOnPage(cat, s, s[i]);
    LateMarketOnceInRest(s, i);
  }

  /** A market among the first 25 that the balanced page leaves out is gone from
      the balanced list: the rest of the list starts at index 25. */
  lemma TopMarketLeftOutIsLost(cat: Market -> CategoryKey, s: seq<Market>, i: int)
    requires Distinct(s) && 0 <= i < |s| && i < MarketsPerPage
    requires s[i] !in BalancedHead(cat, s)
    ensures multiset(Balance(cat, s))[s[i]] == 0
  {
    var rest := Drop(s, MarketsPerPage);
    assert s[i] !in rest by {
      forall t | 0 <= t < |rest| ensures rest[t] != s[i] {
        assert rest[t] == s[MarketsPerPage + t];
      }
    }
    assert multiset(Balance(cat, s)) == multiset(BalancedHead(cat, s)) + multiset(rest);
  }

  /** On a longer list, whenever the first pass admits a market from index 25 on,
      some market among the first 25 is left off the page and so is gone from the
      balanced list. */
  lemma LateAdmissionDropsTopMarket(cat: Market -> CategoryKey, s: seq<Market>, i: int)
    requires Distinct(s) && MarketsPerPage <= i < |s|
    requires s[i] in FirstPass(cat, [], s)
    ensures exists j :: 0 <= j < MarketsPerPage && s[j] !in BalancedHead(cat, s) && multiset(Balance(cat, s))[s[j]] == 0
  {
    var h := BalancedHead(cat, s);
    HeadTakesDeferred(cat, s);
    HeadIsAdmittedThenDeferred(cat, s);
    BalancedHeadIsDistinct(cat, s);
    LateMarketTakesASeat(h, s, i);
    var j :| 0 <= j < MarketsPerPage && s[j] !in h;
    TopMarketLeftOutIsLost(cat, s, j);
  }

  /** A page of 25 distinct markets that holds a market from index 25 on misses
      one of the first 25. */
  lemma LateMarketTakesASeat(h: seq<Market>, s: seq<Market>, i: int)
    requires Distinct(s) && MarketsPerPage <= i < |s|
    requires Distinct(h) && |h| == MarketsPerPage && s[i] in h
    ensures exists j :: 0 <= j < MarketsPerPage && s[j] !in h
  {
    if forall j :: 0 <= j < MarketsPerPage ==> s[j] in h {
      var top := s[..MarketsPerPage];
      TopIdsAndLate(s, i);
      assert Ids(top) + {s[i].marketId} <= Ids(h) by {
        forall m | m in top ensures m in h {
          var a :| 0 <= a < |top| && top[a] == m;
          assert s[a] == m;
        }
      }
      DistinctIdsCount(h);
      SubsetSize(Ids(top) + {s[i].marketId}, Ids(h));
      assert false;
    }
  }

  /** The first 25 ids and one more from later on are 26 ids. */
  lemma TopIdsAndLate(s: seq<Market>, i: int)
    requires Distinct(s) && MarketsPerPage <= i < |s|
    ensures |Ids(s[..MarketsPerPage]) + {s[i].marketId}| == MarketsPerPage + 1
  {
    var top := s[..MarketsPerPage];
    assert Distinct(top) by {
      forall a, c | 0 <= a < c < |top| ensures top[a].marketId != top[c].marketId {
        assert top[a] == s[a] && top[c] == s[c];
      }
    }
    DistinctIdsCount(top);
    assert s[i].marketId !in Ids(top) by {
      forall m | m in top ensures m.marketId != s[i].marketId {
        var a :| 0 <= a < |top| && top[a] == m;
        assert s[a] == m;
      }
    }
  }

  lemma SubsetSize(a: set<string>, b: set<string>)
    requires a <= b
    ensures |a| <= |b|
  {
    assert b == a + (b - a);
  }

  lemma AdmittedOnceOnPage(cat: Market -> CategoryKey, s: seq<Market>, x: Market)
    requires Distinct(s) && x in FirstPass(cat, [], s)
    ensures multiset(BalancedHead(cat, s))[x] == 1
  {
    HeadTakesDeferred(cat, s);
    SplitPermutes(cat, s);
    DistinctMultiplicity(s, x);
    OnceInJoin(BalancedHead(cat, s), FirstPass(cat, [], s), Deferred(cat, [], s), MarketsPerPage - |FirstPass(cat, [], s)|, s, x);
  }

  /** A market that occurs once in `s` and is among `a`, where `a` and `d` split `s`,
      occurs once in `a` followed by a prefix of `d`. */
  lemma OnceInJoin(h: seq<Market>, a: seq<Market>, d: seq<Market>, n: int, s: seq<Market>, x: Market)
    requires h == a + Take(d, n)
    requires multiset(a) + multiset(d) == multiset(s)
    requires x in a && multiset(s)[x] == 1
    ensures multiset(h)[x] == 1
  {
    var take := Take(d, n);
    assert d == take + d[|take|..];
    assert multiset(d) == multiset(take) + multiset(d[|take|..]);
    assert multiset(h) == multiset(a) + multiset(take);
  }

  lemma LateMarketOnceInRest(s: seq<Market>, i: int)
    requires Distinct(s) && MarketsPerPage <= i < |s|
    ensures multiset(Drop(s, MarketsPerPage))[s[i]] == 1
  {
    var rest := s[MarketsPerPage..];
    DistinctMultiplicity(s, s[i]);
    assert s == s[..MarketsPerPage] + rest;
    assert rest[i - MarketsPerPage] == s[i];
    assert multiset(s) == multiset(s[..MarketsPerPage]) + multiset(rest);
  }

  lemma {:induction false} FirstPassMembers(cat: Market -> CategoryKey, acc: seq<Market>, s: seq<Market>)
    ensures forall x :: x in FirstPass(cat, acc, s) ==> x in acc || x in s
    decreases |s|
  {
    if s != [] {
      if Admits(cat, acc, s[0]) {
        FirstPassMembers(cat, acc + [s[0]], s[1..]);
      } else {
        FirstPassMembers(cat, acc, s[1..]);
      }
    }
  }

  lemma {:induction false} FillMembers(b: seq<Market>, s: seq<Market>)
    ensures forall x :: x in Fill(b, s) ==> x in b || x in s
    decreases |s|
  {
    if s != [] && |b| < MarketsPerPage {
      if s[0].marketId in Ids(b) {
        FillMembers(b, s[1..]);
      } else {
        FillMembers(b + [s[0]], s[1..]);
      }
    }
  }

  /** Balancing brings in no market that was not in the list. */
  lemma BalanceMembers(cat: Market -> CategoryKey, s: seq<Market>)
    ensures forall x :: x in Balance(cat, s) ==> x in s
  {
    FirstPassMembers(cat, [], s);
    FillMembers(FirstPass(cat, [], s), s);
  }

  /** The first page the viewer shows after a load is the balanced page, and every
      later page is the page of the unbalanced list. */
  lemma BalancedPages(cat: Market -> CategoryKey, s: seq<Market>, page: nat)
    requires Distinct(s)
    ensures PageSlice(Balance(cat, s), 0) == BalancedHead(cat, s)
    ensures page >= 1 ==> PageSlice(Balance(cat, s), page) == PageSlice(s, page)
  {
    HeadIsAdmittedThenDeferred(cat, s);
    var h := BalancedHead(cat, s);
    var b := Balance(cat, s);
    assert |b| == |s|;
    assert b[..|h|] == h;
    if page >= 1 && page * MarketsPerPage < |s| {
      forall i | page * MarketsPerPage <= i < |s| ensures b[i] == s[i] {
        assert b[i] == s[MarketsPerPage..][i - |h|];
      }
    }
  }
}
