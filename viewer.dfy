/** The viewer object: its market list, the page it shows and the feed's market
    count, the load step that fills them, and page navigation. Rendering, the
    network and the page's controls are not modelled; a load takes the already
    decoded `events` of the feed. */
module Viewer {
  import opened Markets
  import opened Categories
  import opened Paging
  import opened Aggregation
  import opened Ranking
  import opened Balancing

  /** The list a load leaves in `allMarkets`. */
  function LoadedMarkets(events: seq<RawEvent>): seq<Market>
  {
    Balance(CategoryOf, RankByVolume(ActiveOnly(Aggregate(events))))
  }

  class KalshiMarketViewer {
    /** The active markets, ranked and balanced. */
    var allMarkets: seq<Market>
    /** The index of the page shown, from 0. */
    var currentPage: nat
    /** How many distinct markets the last feed held, active or not. */
    var totalMarkets: nat

    /** The page shown is one that navigation can reach. */
    predicate Valid()
      reads this
    {
      currentPage <= LastPage(|allMarkets|)
    }

    constructor()
      ensures allMarkets == [] && currentPage == 0 && totalMarkets == 0
      ensures Valid()
    {
      allMarkets := [];
      currentPage := 0;
      totalMarkets := 0;
    }

    /** The `currentMarkets` getter: the markets of the current page, at most 25,
        in list order; on a reachable page it is empty only when the list is. */
    function CurrentMarkets(): (r: seq<Market>)
      reads this
      ensures |r| <= MarketsPerPage && (r != [] ==> currentPage * MarketsPerPage + |r| <= |allMarkets|)
      ensures forall i :: 0 <= i < |r| ==> r[i] == allMarkets[currentPage * MarketsPerPage + i]
      ensures |r| == if currentPage * MarketsPerPage < |allMarkets| then Min(MarketsPerPage, |allMarkets| - currentPage * MarketsPerPage) else 0
      ensures Valid() ==> (r == [] <==> allMarkets == [])
    {
      var r := PageSlice(allMarkets, currentPage);
      if Valid() then (ReachablePageEmptyIffNoMarkets(allMarkets, currentPage); r) else r
    }

    /** `previousPage`: one page back unless already on the first. */
    method PreviousPage()
      modifies this`currentPage
      ensures currentPage == if old(currentPage) > 0 then old(currentPage) - 1 else 0
      ensures old(Valid()) ==> Valid()
    {
      if currentPage > 0 {
        currentPage := currentPage - 1;
      }
    }

    /** `nextPage`: one page forward unless already on the last page. */
    method NextPage()
      modifies this`currentPage
      ensures currentPage == if old(currentPage) + 1 < TotalPages(|allMarkets|) then old(currentPage) + 1 else old(currentPage)
      ensures old(Valid()) ==> Valid()
    {
      var totalPages: int := TotalPages(|allMarkets|);
      if currentPage < totalPages - 1 {
        currentPage := currentPage + 1;
      }
    }

    /** `balanceCategories`: the two passes over `allMarkets`, then the balanced
        page in place of the first 25 entries. */
    method BalanceCategories()
      modifies this`allMarkets
      ensures allMarkets == Balance(CategoryOf, old(allMarkets))
    {
      var balanced: seq<Market> := [];
      var counts: map<CategoryKey, nat> := map k | k in CategoriesPerPage :: 0;
      forall k ensures k in CategoriesPerPage {
        LimitIsTableEntry(k);
      }

      // First pass: admit markets while their category is under its cap.
      var i := 0;
      while i < |allMarkets|
        invariant allMarkets == old(allMarkets)
        invariant 0 <= i <= |allMarkets|
        invariant FirstPass(CategoryOf, balanced, allMarkets[i..]) == FirstPass(CategoryOf, [], allMarkets)
        invariant forall k :: k in counts && counts[k] == CountIn(CategoryOf, balanced, k)
      {
        var market := allMarkets[i];
        var category := GetCategoryKey(market.eventCategory);
        var limit := Limit(category);
        assert allMarkets[i..][0] == market && allMarkets[i..][1..] == allMarkets[i + 1..];
        FirstPassStep(CategoryOf, balanced, allMarkets[i..]);
        assert counts[category] < limit <==> Admits(CategoryOf, balanced, market);
        if counts[category] < limit {
          forall k ensures CountIn(CategoryOf, balanced + [market], k) == CountIn(CategoryOf, balanced, k) + if category == k then 1 else 0 {
            CountInSnoc(CategoryOf, balanced, market, k);
          }
          balanced := balanced + [market];
          counts := counts[category := counts[category] + 1];
        }
        i := i + 1;
      }
      assert allMarkets[|allMarkets|..] == [];

      // Second pass: fill the page up to 25 with markets not on it yet.
      var j := 0;
      while j < |allMarkets| && |balanced| < MarketsPerPage
        invariant allMarkets == old(allMarkets)
        invariant 0 <= j <= |allMarkets|
        invariant Fill(balanced, allMarkets[j..]) == BalancedHead(CategoryOf, allMarkets)
      {
        var market := allMarkets[j];
        assert allMarkets[j..][0] == market && allMarkets[j..][1..] == allMarkets[j + 1..];
        FillStep(balanced, allMarkets[j..]);
        if market.marketId !in Ids(balanced) {
          balanced := balanced + [market];
        }
        j := j + 1;
      }
      assert j == |allMarkets| ==> allMarkets[j..] == [];
      FillDone(balanced, allMarkets[j..]);
      assert balanced == BalancedHead(CategoryOf, allMarkets);

      allMarkets := balanced + Drop(allMarkets, MarketsPerPage);
    }

    /** `processMarketData`: collect the markets of all events (first id wins),
        remember the count, keep the active ones, rank them by volume, balance the
        first page and go back to page 0. */
    method ProcessMarketData(events: seq<RawEvent>)
      modifies this
      ensures totalMarkets == |Aggregate(events)|
      ensures allMarkets == LoadedMarkets(events)
      ensures currentPage == 0 && Valid()
    {
      allMarkets := [];
      var seenMarkets: set<string> := {};

      var i := 0;
      while i < |events|
        invariant 0 <= i <= |events|
        invariant allMarkets == Dedup(Flatten(events[..i]))
        invariant seenMarkets == Ids(allMarkets)
      {
        var event := events[i];
        FlattenPrefix(events, i);
        if event.markets.Some? {
          var ms := event.markets.value;
          ghost var done := Flatten(events[..i]);
          ghost var normalized := EventMarkets(event);
          var j := 0;
          assert done + normalized[..0] == done;
          while j < |ms|
            invariant 0 <= j <= |ms|
            invariant allMarkets == Dedup(done + normalized[..j])
            invariant seenMarkets == Ids(allMarkets)
          {
            var market := Normalize(event, ms[j]);
            var marketId := ms[j].id;
            assert normalized[j] == market;
            PrefixStep(done, normalized, j);
            DedupSnoc(done + normalized[..j], market);
            if marketId !in seenMarkets {
              seenMarkets := seenMarkets + {marketId};
              allMarkets := allMarkets + [market];
            }
            j := j + 1;
          }
          assert normalized[..|ms|] == normalized;
        } else {
          assert Flatten(events[..i]) + [] == Flatten(events[..i]);
        }
        i := i + 1;
      }
      assert events[..|events|] == events;

      totalMarkets := |allMarkets|;
      allMarkets := ActiveOnly(allMarkets);
      allMarkets := RankByVolume(allMarkets);
      BalanceCategories();
      currentPage := 0;
    }
  }

  /** What a load leaves for display: only active markets, no more of them than
      the feed had markets (the "active of total" count), a first page that is
      the balanced page of the ranked list and shows no id twice, and later pages
      as ranked. */
  lemma LoadedStateShown(events: seq<RawEvent>, page: nat)
    ensures forall m :: m in LoadedMarkets(events) ==> IsActive(m)
    ensures |LoadedMarkets(events)| == |ActiveOnly(Aggregate(events))| <= |Aggregate(events)|
    ensures PageSlice(LoadedMarkets(events), 0) == BalancedHead(CategoryOf, RankByVolume(ActiveOnly(Aggregate(events))))
    ensures Distinct(PageSlice(LoadedMarkets(events), 0))
    ensures page >= 1 ==>
      PageSlice(LoadedMarkets(events), page) == PageSlice(RankByVolume(ActiveOnly(Aggregate(events))), page)
  {
    var agg := Aggregate(events);
    var ranked := RankByVolume(ActiveOnly(agg));
    AggregateIsFirstOccurrences(events);
    RankedIsActiveSortedStable(agg);
    BalanceMembers(CategoryOf, ranked);
    BalanceKeepsLength(CategoryOf, ranked);
    BalancedPages(CategoryOf, ranked, page);
    BalancedHeadIsDistinct(CategoryOf, ranked);
    RankPermutes(ActiveOnly(agg));
    assert |ranked| == |ActiveOnly(agg)| by {
      assert |multiset(ranked)| == |multiset(ActiveOnly(agg))|;
    }
    ActiveOnlyLength(agg);
  }
}
