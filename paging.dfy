/** Fixed-size pages over the viewer's market list: the page count of
    `updatePagination`/`nextPage` and the slice of the `currentMarkets` getter. */
module Paging {

  /** `marketsPerPage`. */
  const MarketsPerPage: nat := 25

  function Min(a: int, b: int): int
  {
    if a <= b then a else b
  }

  /** `Math.ceil(n / marketsPerPage)`. */
  function TotalPages(n: nat): (r: nat)
    ensures n <= r * MarketsPerPage
    ensures r == 0 || (r - 1) * MarketsPerPage < n
  {
    (n + MarketsPerPage - 1) / MarketsPerPage
  }

  /** The highest page index navigation can reach: `max(0, totalPages - 1)`. */
  function LastPage(n: nat): nat
  {
    if TotalPages(n) == 0 then 0 else TotalPages(n) - 1
  }

  /** `s.slice(page * 25, page * 25 + 25)`: the block of at most 25 entries that
      starts at the page's first index, empty once the page is past the end. */
  function PageSlice<T>(s: seq<T>, page: nat): (r: seq<T>)
    ensures |r| == if page * MarketsPerPage < |s| then Min(MarketsPerPage, |s| - page * MarketsPerPage) else 0
    ensures forall i :: 0 <= i < |r| ==> r[i] == s[page * MarketsPerPage + i]
  {
    var start := page * MarketsPerPage;
    if start < |s| then s[start..Min(start + MarketsPerPage, |s|)] else []
  }

  /** Every page but the last is full; the last holds between 1 and 25 entries;
      pages past it are empty. */
  lemma PageLengths<T>(s: seq<T>, page: nat)
    ensures page + 1 < TotalPages(|s|) ==> |PageSlice(s, page)| == MarketsPerPage
    ensures page + 1 == TotalPages(|s|) ==> 1 <= |PageSlice(s, page)| <= MarketsPerPage
    ensures page >= TotalPages(|s|) ==> PageSlice(s, page) == []
  {
    var n := |s|;
    if page + 1 < TotalPages(n) {
      assert (page + 1) * MarketsPerPage < n by {
        assert (page + 1) * MarketsPerPage <= (TotalPages(n) - 1) * MarketsPerPage;
      }
    } else if page >= TotalPages(n) {
      assert n <= page * MarketsPerPage by {
        assert TotalPages(n) * MarketsPerPage <= page * MarketsPerPage;
      }
    }
  }

  /** On any page navigation can reach, nothing is shown exactly when there are
      no markets at all (the "No active markets found" state). */
  lemma ReachablePageEmptyIffNoMarkets<T>(s: seq<T>, page: nat)
    requires page <= LastPage(|s|)
    ensures PageSlice(s, page) == [] <==> s == []
  {
    if s != [] {
      PageLengths(s, page);
    }
  }

  /** Pages 0 .. count-1 one after the other. */
  function Pages<T>(s: seq<T>, count: nat): seq<T>
  {
    if count == 0 then [] else Pages(s, count - 1) + PageSlice(s, count - 1)
  }

  /** A page below the page count starts inside the list. */
  lemma PageStartsInside(n: nat, page: nat)
    requires page < TotalPages(n)
    ensures page * MarketsPerPage < n
  {
    assert page * MarketsPerPage <= (TotalPages(n) - 1) * MarketsPerPage;
  }

  lemma SliceJoin<T>(s: seq<T>, lo: nat, hi: nat)
    requires lo <= hi <= |s|
    ensures s[..lo] + s[lo..hi] == s[..hi]
  {
  }

  /** Reading the pages in order shows every entry exactly once, in order. */
  lemma {:induction false} PagesPartition<T>(s: seq<T>, count: nat)
    requires count <= TotalPages(|s|)
    ensures Pages(s, count) == s[..Min(count * MarketsPerPage, |s|)]
  {
    if count > 0 {
      PagesPartition(s, count - 1);
      var lo := (count - 1) * MarketsPerPage;
      assert lo + MarketsPerPage == count * MarketsPerPage;
      PageStartsInside(|s|, count - 1);
      SliceJoin(s, lo, Min(lo + MarketsPerPage, |s|));
    }
  }

  lemma AllPagesAreTheList<T>(s: seq<T>)
    ensures Pages(s, TotalPages(|s|)) == s
  {
    PagesPartition(s, TotalPages(|s|));
    assert s[..|s|] == s;
  }
}
