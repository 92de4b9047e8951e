# Kalshi market viewer: the load pipeline, modelled and proved in Dafny

`KalshiMarketViewer` (script.js) shows the live markets of a prediction-market
feed, 25 per page. This project models how it shapes the data behind every load,
and what its page controls do to the page index:

1. **Aggregate and deduplicate** (`processMarketData`). The markets of every event
   are walked in event-then-market order. An event whose `markets` field is missing
   or is not an array is skipped. The first market seen with each id is kept, with
   the event's title, category and ticker copied onto it. `totalMarkets` records how
   many were kept.
2. **Filter and rank.** Only markets with status `"active"` stay. They are sorted by
   dollar volume, highest first, with a missing volume counting as 0. The sort is
   stable.
3. **Balance the first page** (`balanceCategories`, with `getCategoryKey` and the
   `categoriesPerPage` caps). A first pass admits each market while its category is
   under its cap. A second pass tops the page up to 25 with markets not on it yet.
   The page then replaces the first 25 entries of the list.
4. **Card helpers:** `calculateOdds`, `getMarketOptions` and `getMarketQuestion`.
5. **Pages:** the `currentMarkets` getter, `previousPage` and `nextPage`.

Modules, one per stage:

- `Markets`: the feed's records and a JavaScript view of numbers and strings. `JsNumber` keeps `undefined`, `null` and `NaN` apart. Also the id predicates `Ids` and `Distinct`.
- `Aggregation`: first-occurrence deduplication.
- `Ranking`: the status filter, and the stable sort as an insertion sort.
- `Categories`: the caps and the classifier.
- `Balancing`: the two passes as functions over a classifier `cat`.
- `Odds`: the card helpers.
- `Paging`: page arithmetic.
- `Viewer`: the class `KalshiMarketViewer`. Its fields are `allMarkets`, `currentPage` and `totalMarkets`, `ProcessMarketData` and `BalanceCategories` are loops; the page controls are single conditionals.

The methods are proved against the functions:

- `ProcessMarketData` runs nested loops with a seen-id set. It is proved to leave exactly `LoadedMarkets(events)`.
- `BalanceCategories` runs its two passes with a `map` of counters. It is proved to leave `Balance(CategoryOf, old(allMarkets))`.

The lemmas of each module say what those functions mean.

## Behaviour kept as written

- **A long list is not permuted.** On a list longer than 25, `balanceCategories` is not a permutation.
  - The first pass walks the whole list. A market from index 25 on that it admits is on the first page and is also kept by `slice(25)`, so it shows twice (`Balancing.LateAdmissionDuplicated`).
  - Top-25 markets it leaves out are lost from the list (`Balancing.TopMarketLeftOutIsLost`), and whenever the first pass admits a market from index 25 on, some top-25 market is pushed out (`Balancing.LateAdmissionDropsTopMarket`).
  - On at most 25 markets the result is a permutation (`Balancing.ShortListIsPermuted`).
- **Fill-ins ignore the caps.** Markets added by the second pass ignore the caps. Only the first-pass admissions respect them (`Balancing.BalancedHeadShape`).
- **A 0 price counts as absent.** `calculateOdds` treats a 0 price as absent, so `CalculateOdds(0, 40)` is 40 (`Odds.OddsExamples`).
- **A half rounds up in both estimates.** `Math.round` rounds a half up for both the yes and the no estimate, so for a book strictly inside (0, 100) the two add up to 101 when the bid plus the ask is odd (`Odds.YesNoOddsSum`). At the edge a 0 price counts as absent: for a bid of 0 and an ask of 41 the estimates are 41 and 80 (`Odds.OddsExamples`).

## Model

| member | source | states |
|---|---|---|
| Markets.Normalize | script.js:131-138 | the kept record carries the raw market, its id as `marketId`, and the event's title, category and ticker; `imageLink` is the rulebook image link when it is a non-empty string and null otherwise |
| Markets.DistinctIdsCount | script.js:143-144 | a list without a repeated id has as many distinct ids as entries |
| Aggregation.NormalizeAll | script.js:120-139 | an event's markets are normalized one for one, in listed order |
| Aggregation.FlattenMembers | script.js:118-141 | a market is in the traversal exactly when it is the normalization of a market listed in an event whose `markets` is an array |
| Aggregation.EventWithoutMarketsIsSkipped | script.js:118-119 | an event whose `markets` is missing or not an array changes nothing, wherever it sits among the events |
| Aggregation.DedupKeepsOrder | script.js:118-141 | the kept markets are a subsequence of the traversal, in traversal order |
| Aggregation.DedupInFirstSeenOrder | script.js:118-138 | the kept markets come in the order their ids are first seen: the first index of an earlier kept id in the traversal is below that of a later one |
| Aggregation.DedupKeepsFirstOccurrence | script.js:125-128 | every kept market is the first market of the traversal with its id |
| Aggregation.AggregateIsFirstOccurrences | script.js:113-144 | the aggregated list has pairwise distinct ids, one per id of the feed, each the first market with that id, a subsequence of the traversal in the order the ids are first seen; so `totalMarkets` is the number of distinct ids |
| Ranking.ActiveOnlyKeepsExactlyActive | script.js:147-149 | the filter keeps every active market as often as it occurs, and nothing else |
| Ranking.ActiveOnlyIsActive | script.js:147-149 | every market after the filter has status "active" |
| Ranking.ActiveOnlyKeepsOrder | script.js:147-149 | the kept markets are a subsequence of the list, in their original order |
| Ranking.ActiveOnlyLength | script.js:147-149 | filtering never adds markets |
| Ranking.RankPermutes | script.js:152 | the sort is a permutation of its input |
| Ranking.RankIsSorted | script.js:152 | the sorted list has non-increasing volume, a missing volume counting as 0 |
| Ranking.RankIsStable | script.js:152 | for every volume, the markets with that volume keep their input order |
| Ranking.RankedIsActiveSortedStable | script.js:146-152 | the ranked list is exactly the active aggregated markets, all active, sorted, stable with respect to aggregation order and without a repeated id |
| Categories.LimitIsTableEntry | script.js:8-16 | every category is in `categoriesPerPage` with a non-zero cap, so the limit is its own table entry and the fallback to the Other cap never fires |
| Categories.ContainsIffOccurs | script.js:491-497 | `includes` holds exactly when the pattern occurs at some position |
| Categories.FirstMatch | script.js:488-500 | the table reading of the classifier: Other exactly when no category of the list matches, else a matching category with no matching category before it |
| Categories.GetCategoryKey | script.js:489 | an absent or empty label is Other |
| Categories.ClassifierIsFirstMatch | script.js:488-500 | for a non-empty label the classifier returns the first category, in the order politics/election, economics/finance, sports, entertainment, world/international, technology/tech, whose keywords occur in the lowercased label, or Other |
| Categories.ClassificationIgnoresCase | script.js:491 | a label and its lowercase form get the same category |
| Balancing.CapsFillOnePage | script.js:8-16 | the seven caps add up to 25, one page |
| Balancing.CountsAddUp | script.js:457-472 | the per-category counts of a list add up to its length |
| Balancing.FirstPassIsTopOfEachCategory | script.js:465-473 | the first pass is the independent reading: a market is admitted exactly when fewer markets of its category than its cap come before it in the ranked list |
| Balancing.FirstPassTakesTopOfEachCategory | script.js:465-473 | for every category, the admitted markets of that category are its first markets in ranked order, as many as the cap allows, and the admissions keep ranked order |
| Balancing.FirstPassKeepsCaps | script.js:465-473 | no category goes over its cap in the first pass |
| Balancing.DeferredCategoriesAreFull | script.js:465-473 | a market the first pass passes over belongs to a category that ends the pass full |
| Balancing.FirstPassSplits | script.js:465-473 | the admitted and the passed-over markets together are the input, as a multiset |
| Balancing.AdmittedFitOnePage | script.js:465-473 | the first pass admits at most 25 markets |
| Balancing.DeferredAreNotAdmitted | script.js:465-482 | on a list without a repeated id, the markets whose id the first pass did not admit are exactly the passed-over ones, in order |
| Balancing.FillTakesMissing | script.js:476-482 | the second pass appends the first markets not on the page, as many as there is room for up to 25 |
| Balancing.FillKeepsDistinct | script.js:479-480 | the second pass never appends an id already on the page |
| Balancing.BalancedHeadShape | script.js:454-482 | the first page is the admissions (for every category its top markets up to its cap, in ranked order; at most 25; every passed-over market's category full) followed by the passed-over markets in ranked order up to 25; it holds min(n, 25) markets |
| Balancing.BalancedHeadIsDistinct | script.js:456-482 | the first page has no repeated id |
| Balancing.BalanceKeepsLength | script.js:485 | balancing keeps the length of the list |
| Balancing.BalanceKeepsTail | script.js:485 | from index 25 on, the balanced list is the input list |
| Balancing.ShortListIsPermuted | script.js:454-485 | a list of at most 25 becomes the admissions followed by the passed-over markets, a permutation of the input |
| Balancing.LateAdmissionDuplicated | script.js:465-485 | on a longer list, a market from index 25 on that the first pass admits occurs twice in the result |
| Balancing.TopMarketLeftOutIsLost | script.js:485 | a market among the first 25 that the balanced page leaves out does not occur in the balanced list |
| Balancing.LateAdmissionDropsTopMarket | script.js:465-485 | whenever the first pass admits a market from index 25 on, some market among the first 25 is left off the page and is gone from the balanced list |
| Balancing.BalanceMembers | script.js:454-485 | balancing brings in no market that was not in the list |
| Balancing.BalancedPages | script.js:237-241 | after balancing, page 0 is the balanced page and every later page is that page of the input list |
| Odds.CalculateOdds | script.js:359-369 | both prices truthy: the midpoint rounded half up; one truthy price: that price; neither: 0 (0 and NaN are falsy) |
| Odds.Complement | script.js:332 | `100 - p` is 100 for null, NaN for undefined or NaN, and 100 - p for a number |
| Odds.OddsExamples | script.js:359-369 | (30, 40) gives 35, (30, absent) gives 30, (absent, absent) gives 0, (0, 40) gives 40, (35, 40) gives 38; the yes and no estimates of the book (0, 41) are 41 and 80 |
| Odds.OddsArePercentages | script.js:359-369 | prices between 0 and 100 give an estimate between 0 and 100 |
| Odds.YesNoOddsSum | script.js:326-333 | for a book inside (0, 100), the yes and no estimates add up to 100, or 101 when bid + ask is odd |
| Odds.GetMarketOptions | script.js:321-357 | two options exactly when both outcome sub-titles are present or neither the yes nor the generic sub-title is; the first option's odds are the yes odds, a second option's are the odds of (100 - ask, 100 - bid); names follow the same cases |
| Odds.GetMarketQuestion | script.js:309-319 | the first non-blank of title, name and sub-title, else "Market Question"; never blank |
| Paging.TotalPages | script.js:426 | the page count is the ceiling of n / 25 |
| Paging.PageSlice | script.js:237-241 | the page holds min(25, n - 25p) entries when its start is inside the list, none otherwise, and they are the list's entries from index 25p on |
| Paging.PageLengths | script.js:237-241 | every page but the last is full, the last holds 1 to 25 entries, pages past it are empty |
| Paging.ReachablePageEmptyIffNoMarkets | script.js:237-241 | on a page navigation can reach, nothing is shown exactly when the list is empty |
| Paging.AllPagesAreTheList | script.js:237-241 | reading all pages in order gives the list back |
| Viewer.KalshiMarketViewer.constructor | script.js:2-16 | an empty list, page 0, no markets counted |
| Viewer.KalshiMarketViewer.CurrentMarkets | script.js:237-241 | at most 25 markets, the entries of the list from the page's start on, exactly min(25, n - 25p) of them when the page starts inside the list and none otherwise; empty on a reachable page exactly when the list is |
| Viewer.KalshiMarketViewer.PreviousPage | script.js:418-423 | one page back, nothing at page 0; a reachable page stays reachable |
| Viewer.KalshiMarketViewer.NextPage | script.js:425-431 | one page forward unless on the last page (so nothing with no markets); a reachable page stays reachable |
| Viewer.KalshiMarketViewer.BalanceCategories | script.js:454-486 | the two passes leave exactly the balanced list of the previous list |
| Viewer.KalshiMarketViewer.ProcessMarketData | script.js:113-157 | the list is the balanced ranking of the active aggregated markets, `totalMarkets` is the number of aggregated markets, the page is 0 |
| Viewer.LoadedStateShown | script.js:113-157 | after a load every shown market is active, there are at most `totalMarkets` of them, page 0 is the balanced page with no repeated id, later pages are as ranked |

## Left out

- `loadMarkets`: the fetch through the proxies, the `isLoading` guard and the choice of error message. These are network and asynchronous code. A load here takes the `events` of a feed that has been fetched and decoded.
- A feed without an `events` array: the source throws on it. The model takes the events as a sequence.
- Malformed entries that make a load throw, after which `loadMarkets` shows an error. A null entry in `events` (script.js:119), a null entry in a `markets` array (:122) and a truthy `event.category` that is not a string (`toLowerCase`, :491) throw before `currentPage` is reset, leaving `allMarkets` part-way through processing. A truthy title, name or sub-title that is not a string (`trim`, :311-315) throws in the render after the reset. The types of the model rule all of these out: every event and market is a record and every text field is a string or absent.
- Rendering and the page text: `renderMarkets`, `createMarketCard`, `getMarketIcon`, `updateDisplay`, `updatePagination`, `updateMarketCount`, `showLoading`, `showError`, `setupEventListeners` and `init`. `init` is called from the constructor. These are DOM updates; the page count they show is `Paging.TotalPages`.
- `escapeHtml` (browser DOM), `formatNumber` (floating point, locale formatting), `capitalizeFirst` (never called) and console logging.
- The Python proxy and static-file servers: HTTP plumbing with no data logic.
- Categories.ToLower: lowercases ASCII letters only. JavaScript `toLowerCase` maps all of Unicode.
- Odds.CalculateOdds: prices and volumes are integers here. Fractional prices, and volumes or prices given as strings, are not modelled.
- Markets.RawMarket: market ids are strings. The source compares ids of any type with `Set.has` and `===`.
- Viewer.KalshiMarketViewer.ProcessMarketData: the status filter and the sort are library calls in the source. The model uses the reference functions `ActiveOnly` and `RankByVolume` (a stable insertion sort) in place of those calls. The sort's comparator `(b.volume || 0) - (a.volume || 0)` orders by volume, highest first.
- Viewer.KalshiMarketViewer.BalanceCategories: the `find` over the page is a membership test on the page's set of ids. The counter table starts as a map from every category to 0.
- The sample feed shown when every proxy fails is not modelled; it is only the fallback of `loadMarkets`.
