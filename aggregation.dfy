/** Aggregation and deduplication (the first half of `processMarketData`): the
    markets of all events are normalized in event-then-market order, and only the
    first market seen with each id is kept. */
module Aggregation {
  import opened Markets

  /** The markets of one event, normalized, in listed order. */
  function NormalizeAll(e: RawEvent, ms: seq<RawMarket>): (r: seq<Market>)
    ensures |r| == |ms|
    ensures forall j :: 0 <= j < |ms| ==> r[j] == Normalize(e, ms[j])
  {
    seq(|ms|, j requires 0 <= j < |ms| => Normalize(e, ms[j]))
  }

  /** What an event contributes: nothing when `markets` is missing or not an array. */
  function EventMarkets(e: RawEvent): seq<Market>
  {
    if e.markets.Some? then NormalizeAll(e, e.markets.value) else []
  }

  /** All markets of all events, before deduplication, in traversal order. */
  function Flatten(events: seq<RawEvent>): seq<Market>
  {
    if events == [] then []
    else Flatten(events[..|events| - 1]) + EventMarkets(events[|events| - 1])
  }

  /** The `seenMarkets` walk: a market is appended unless its id was seen before. */
  function Dedup(s: seq<Market>): seq<Market>
  {
    if s == [] then []
    else
      var kept := Dedup(s[..|s| - 1]);
      var m := s[|s| - 1];
      if m.marketId in Ids(kept) then kept else kept + [m]
  }

  /** The aggregated collection of one load. */
  function Aggregate(events: seq<RawEvent>): seq<Market>
  {
    Dedup(Flatten(events))
  }

  /** The first market of `s` with the given id, if any. */
  function FirstWithId(s: seq<Market>, id: string): Option<Market>
  {
    if s == [] then None
    else if s[0].marketId == id then Some(s[0])
    else FirstWithId(s[1..], id)
  }

  /** The index of the first market of `s` with the given id, or `|s|` if none. */
  function FirstIndex(s: seq<Market>, id: string): nat
  {
    if s == [] then 0
    else if s[0].marketId == id then 0
    else 1 + FirstIndex(s[1..], id)
  }

  // ----- Flatten -----

  /** One more event appends that event's markets. */
  lemma FlattenPrefix(events: seq<RawEvent>, i: int)
    requires 0 <= i < |events|
    ensures Flatten(events[..i + 1]) == Flatten(events[..i]) + EventMarkets(events[i])
  {
    assert events[..i + 1][..i] == events[..i];
  }

  /** A market is in the flattened feed exactly when it is the normalization of
      a market listed in an event whose `markets` field is an array. */
  lemma {:induction false} FlattenMembers(events: seq<RawEvent>, x: Market)
    ensures x in Flatten(events) <==>
      exists i, j :: 0 <= i < |events| && events[i].markets.Some? &&
        0 <= j < |events[i].markets.value| && x == Normalize(events[i], events[i].markets.value[j])
  {
    if events != [] {
      var init, e := events[..|events| - 1], events[|events| - 1];
      FlattenMembers(init, x);
      assert forall i :: 0 <= i < |init| ==> init[i] == events[i];
      if x in Flatten(events) && x !in Flatten(init) {
        assert x in EventMarkets(e);
        var j :| 0 <= j < |EventMarkets(e)| && EventMarkets(e)[j] == x;
        assert x == Normalize(events[|events| - 1], events[|events| - 1].markets.value[j]);
      }
      if x !in Flatten(events) {
        forall i, j | 0 <= i < |events| && events[i].markets.Some? && 0 <= j < |events[i].markets.value|
          ensures x != Normalize(events[i], events[i].markets.value[j])
        {
          if i == |events| - 1 {
            assert EventMarkets(e)[j] == Normalize(events[i], events[i].markets.value[j]);
          }
        }
      }
    }
  }

  /** The traversal of a feed split in two is the traversal of each part. */
  lemma {:induction false} FlattenAppend(a: seq<RawEvent>, b: seq<RawEvent>)
    ensures Flatten(a + b) == Flatten(a) + Flatten(b)
  {
    if b == [] {
      assert a + b == a;
    } else {
      var init, e := b[..|b| - 1], b[|b| - 1];
      assert (a + b)[..|a + b| - 1] == a + init && (a + b)[|a + b| - 1] == e;
      FlattenAppend(a, init);
    }
  }

  // ----- Dedup -----

  lemma PrefixStep(done: seq<Market>, ms: seq<Market>, j: int)
    requires 0 <= j < |ms|
    ensures done + ms[..j + 1] == (done + ms[..j]) + [ms[j]]
  {
    assert ms[..j + 1] == ms[..j] + [ms[j]];
  }

  /** One more market is kept exactly when its id has not been seen. */
  lemma DedupSnoc(s: seq<Market>, x: Market)
    ensures x.marketId in Ids(Dedup(s)) ==> Dedup(s + [x]) == Dedup(s)
    ensures x.marketId !in Ids(Dedup(s)) ==>
      Dedup(s + [x]) == Dedup(s) + [x] && Ids(Dedup(s) + [x]) == Ids(Dedup(s)) + {x.marketId}
  {
    assert (s + [x])[..|s|] == s;
    IdsAppend(Dedup(s), [x]);
    assert Ids([x]) == {x.marketId};
  }

  lemma {:induction false} DedupKeepsEveryId(s: seq<Market>)
    ensures Ids(Dedup(s)) == Ids(s)
  {
    if s != [] {
      var init, m := s[..|s| - 1], s[|s| - 1];
      assert s == init + [m];
      DedupKeepsEveryId(init);
      IdsAppend(init, [m]);
      IdsAppend(Dedup(init), [m]);
      assert Ids([m]) == {m.marketId};
    }
  }

  lemma {:induction false} DedupIsDistinct(s: seq<Market>)
    ensures Distinct(Dedup(s))
  {
    if s != [] {
      var init, m := s[..|s| - 1], s[|s| - 1];
      DedupIsDistinct(init);
      DistinctSnoc(Dedup(init), m);
    }
  }

  lemma {:induction false} FirstWithIdSnoc(s: seq<Market>, x: Market, id: string)
    ensures FirstWithId(s + [x], id) ==
      if FirstWithId(s, id).Some? then FirstWithId(s, id)
      else if x.marketId == id then Some(x) else None
  {
    if s != [] {
      assert (s + [x])[1..] == s[1..] + [x];
      FirstWithIdSnoc(s[1..], x, id);
    }
  }

  lemma {:induction false} FirstWithIdFound(s: seq<Market>, id: string)
    ensures FirstWithId(s, id).Some? <==> id in Ids(s)
    ensures FirstWithId(s, id).Some? ==> FirstWithId(s, id).value in s && FirstWithId(s, id).value.marketId == id
  {
    if s != [] {
      FirstWithIdFound(s[1..], id);
      assert s == [s[0]] + s[1..];
      IdsAppend([s[0]], s[1..]);
      assert Ids([s[0]]) == {s[0].marketId};
    }
  }

  /** Every kept market is the first market in traversal order with its id. */
  lemma {:induction false} DedupKeepsFirstOccurrence(s: seq<Market>, x: Market)
    requires x in Dedup(s)
    ensures FirstWithId(s, x.marketId) == Some(x)
  {
    var init, m := s[..|s| - 1], s[|s| - 1];
    assert s == init + [m];
    FirstWithIdSnoc(init, m, x.marketId);
    if x in Dedup(init) {
      DedupKeepsFirstOccurrence(init, x);
    } else {
      DedupKeepsEveryId(init);
      FirstWithIdFound(init, m.marketId);
    }
  }

  lemma {:induction false} FirstIndexSnoc(s: seq<Market>, x: Market, id: string)
    ensures id in Ids(s) ==> FirstIndex(s + [x], id) == FirstIndex(s, id) < |s|
    ensures id !in Ids(s) && x.marketId == id ==> FirstIndex(s + [x], id) == |s|
  {
    if s != [] {
      assert (s + [x])[1..] == s[1..] + [x];
      assert s == [s[0]] + s[1..];
      IdsAppend([s[0]], s[1..]);
      assert Ids([s[0]]) == {s[0].marketId};
      FirstIndexSnoc(s[1..], x, id);
    }
  }

  /** Kept markets come in the order their ids are first seen in the traversal. */
  lemma {:induction false} DedupInFirstSeenOrder(s: seq<Market>)
    ensures forall i, j :: 0 <= i < j < |Dedup(s)| ==>
      FirstIndex(s, Dedup(s)[i].marketId) < FirstIndex(s, Dedup(s)[j].marketId)
  {
    if s != [] {
      var init, m := s[..|s| - 1], s[|s| - 1];
      assert s == init + [m];
      var d0 := Dedup(init);
      DedupInFirstSeenOrder(init);
      DedupKeepsEveryId(init);
      forall i | 0 <= i < |d0|
        ensures FirstIndex(s, d0[i].marketId) == FirstIndex(init, d0[i].marketId) < |init|
      {
        assert d0[i] in d0;
        FirstIndexSnoc(init, m, d0[i].marketId);
      }
      if m.marketId !in Ids(d0) {
        FirstIndexSnoc(init, m, m.marketId);
        assert Dedup(s) == d0 + [m];
      }
    }
  }

  /** Kept markets keep their traversal order. */
  lemma {:induction false} DedupKeepsOrder(s: seq<Market>)
    ensures IsSubsequence(Dedup(s), s)
  {
    if s != [] {
      var init, m := s[..|s| - 1], s[|s| - 1];
      assert s == init + [m];
      DedupKeepsOrder(init);
      if m.marketId in Ids(Dedup(init)) {
        SubsequenceSnocRight(Dedup(init), init, m);
      } else {
        SubsequenceSnocBoth(Dedup(init), init, m);
      }
    }
  }

  /** What one load aggregates: markets with pairwise-distinct ids, one for each id
      the feed mentions, each the first market of the traversal with its id, in
      traversal order; so `totalMarkets` is the number of distinct ids. */
  lemma AggregateIsFirstOccurrences(events: seq<RawEvent>)
    ensures Distinct(Aggregate(events))
    ensures Ids(Aggregate(events)) == Ids(Flatten(events))
    ensures forall x :: x in Aggregate(events) ==> FirstWithId(Flatten(events), x.marketId) == Some(x)
    ensures IsSubsequence(Aggregate(events), Flatten(events))
    ensures forall i, j :: 0 <= i < j < |Aggregate(events)| ==>
      FirstIndex(Flatten(events), Aggregate(events)[i].marketId) < FirstIndex(Flatten(events), Aggregate(events)[j].marketId)
    ensures |Aggregate(events)| == |Ids(Flatten(events))|
  {
    var s := Flatten(events);
    DedupIsDistinct(s);
    DedupKeepsEveryId(s);
    DedupKeepsOrder(s);
    DedupInFirstSeenOrder(s);
    forall x | x in Dedup(s) ensures FirstWithId(s, x.marketId) == Some(x) {
      DedupKeepsFirstOccurrence(s, x);
    }
    DistinctIdsCount(Dedup(s));
  }

  /** An event whose `markets` field is missing or not an array changes nothing,
      wherever it sits in the feed. */
  lemma EventWithoutMarketsIsSkipped(pre: seq<RawEvent>, e: RawEvent, post: seq<RawEvent>)
    requires e.markets.None?
    ensures Aggregate(pre + [e] + post) == Aggregate(pre + post)
  {
    assert [e][..0] == [];
    assert Flatten([e]) == [];
    FlattenAppend(pre, [e]);
    FlattenAppend(pre + [e], post);
    FlattenAppend(pre, post);
    assert Flatten(pre) + [] == Flatten(pre);
  }
}
