/** The data model of the market viewer: events and markets as the feed delivers
    them, the normalized market record the viewer keeps, and the identity
    predicates (the set of market ids, "no id twice") used by every stage. */
module Markets {

  datatype Option<+T> = None | Some(value: T)

  /** A JSON number field as the viewer sees it. An absent field and an explicit
      null are both falsy, but they differ under arithmetic: `100 - null` is 100
      while `100 - undefined` is NaN, which is falsy too. */
  datatype JsNumber = Undefined | Null | NaN | Num(value: int)

  /** JavaScript truthiness of a number: 0, NaN, null and undefined are falsy. */
  predicate Truthy(n: JsNumber)
  {
    n.Num? && n.value != 0
  }

  /** JavaScript truthiness of an optional string: absent and "" are falsy. */
  predicate TruthyText(s: Option<string>)
  {
    s.Some? && s.value != ""
  }

  /** One market of an event, as the feed delivers it. Only `id` is always there.
      `imageLink` is `rulebook_variables.image_link`. */
  datatype RawMarket = RawMarket(
    id: string,
    title: Option<string>,
    name: Option<string>,
    subTitle: Option<string>,
    yesSubTitle: Option<string>,
    noSubTitle: Option<string>,
    status: Option<string>,
    dollarVolume: JsNumber,
    yesBid: JsNumber,
    yesAsk: JsNumber,
    imageLink: Option<string>)

  /** One event of the feed. `markets` is None when the field is missing or is
      not an array. */
  datatype RawEvent = RawEvent(
    title: Option<string>,
    category: Option<string>,
    ticker: Option<string>,
    markets: Option<seq<RawMarket>>)

  /** The record the viewer keeps for a market: the raw fields, the identity it
      deduplicates on, and the event's metadata copied onto it. */
  datatype Market = Market(
    raw: RawMarket,
    marketId: string,
    eventTitle: Option<string>,
    eventCategory: Option<string>,
    eventTicker: Option<string>,
    imageLink: Option<string>)

  /** Normalizes one market of an event. */
  function Normalize(e: RawEvent, m: RawMarket): (r: Market)
    ensures r.raw == m && r.marketId == m.id
    ensures r.eventTitle == e.title && r.eventCategory == e.category && r.eventTicker == e.ticker
    ensures r.imageLink.Some? <==> TruthyText(m.imageLink)
    ensures r.imageLink.Some? ==> r.imageLink == m.imageLink
  {
    Market(m, m.id, e.title, e.category, e.ticker,
      if TruthyText(m.imageLink) then m.imageLink else None)
  }

  /** The market ids occurring in a sequence of markets. */
  function Ids(s: seq<Market>): set<string>
  {
    set m | m in s :: m.marketId
  }

  /** No market id occurs twice. */
  predicate Distinct(s: seq<Market>)
  {
    forall i, j :: 0 <= i < j < |s| ==> s[i].marketId != s[j].marketId
  }

  lemma IdsAppend(a: seq<Market>, b: seq<Market>)
    ensures Ids(a + b) == Ids(a) + Ids(b)
  {
    forall id | id in Ids(a + b) ensures id in Ids(a) + Ids(b) {
      var m :| m in a + b && m.marketId == id;
      assert m in a || m in b;
    }
    forall id | id in Ids(a) + Ids(b) ensures id in Ids(a + b) {
      if id in Ids(a) {
        var m :| m in a && m.marketId == id;
        assert m in a + b;
      } else {
        var m :| m in b && m.marketId == id;
        assert m in a + b;
      }
    }
  }

  lemma DistinctSnoc(t: seq<Market>, x: Market)
    ensures Distinct(t + [x]) <==> Distinct(t) && x.marketId !in Ids(t)
  {
    var s := t + [x];
    if Distinct(s) {
      forall i, j | 0 <= i < j < |t| ensures t[i].marketId != t[j].marketId {
        assert s[i] == t[i] && s[j] == t[j];
      }
      forall m | m in t ensures m.marketId != x.marketId {
        var i :| 0 <= i < |t| && t[i] == m;
        assert s[i] == m && s[|t|] == x;
      }
    }
    if Distinct(t) && x.marketId !in Ids(t) {
      forall i, j | 0 <= i < j < |s| ensures s[i].marketId != s[j].marketId {
        if j == |t| {
          assert s[i] == t[i] && t[i] in t;
        } else {
          assert s[i] == t[i] && s[j] == t[j];
        }
      }
    }
  }

  lemma DistinctCons(x: Market, t: seq<Market>)
    ensures Distinct([x] + t) <==> x.marketId !in Ids(t) && Distinct(t)
  {
    var s := [x] + t;
    if Distinct(s) {
      forall i, j | 0 <= i < j < |t| ensures t[i].marketId != t[j].marketId {
        assert s[i + 1] == t[i] && s[j + 1] == t[j];
      }
      forall m | m in t ensures m.marketId != x.marketId {
        var i :| 0 <= i < |t| && t[i] == m;
        assert s[i + 1] == m && s[0] == x;
      }
    }
    if Distinct(t) && x.marketId !in Ids(t) {
      forall i, j | 0 <= i < j < |s| ensures s[i].marketId != s[j].marketId {
        if i == 0 {
          assert s[j] == t[j - 1] && t[j - 1] in t;
        } else {
          assert s[i] == t[i - 1] && s[j] == t[j - 1];
        }
      }
    }
  }

  /** A market occurs at most once in a sequence without repeated ids. */
  lemma {:induction false} DistinctMultiplicity(s: seq<Market>, x: Market)
    requires Distinct(s)
    ensures multiset(s)[x] == if x in s then 1 else 0
  {
    if s != [] {
      var t, y := s[..|s| - 1], s[|s| - 1];
      assert s == t + [y];
      DistinctSnoc(t, y);
      DistinctMultiplicity(t, x);
      assert y in t ==> y.marketId in Ids(t);
    }
  }

  /** Without repeated ids there are as many ids as markets. */
  lemma {:induction false} DistinctIdsCount(s: seq<Market>)
    requires Distinct(s)
    ensures |Ids(s)| == |s|
  {
    if s != [] {
      var t, y := s[..|s| - 1], s[|s| - 1];
      assert Distinct(t) && y.marketId !in Ids(t) by {
        assert s == t + [y];
        DistinctSnoc(t, y);
      }
      assert Ids(s) == Ids(t) + {y.marketId} by {
        assert s == t + [y];
        IdsAppend(t, [y]);
        assert Ids([y]) == {y.marketId};
      }
      DistinctIdsCount(t);
    }
  }

  // ----- subsequences -----

  /** `a` is `b` with some entries left out, the rest in the same order. */
  predicate IsSubsequence(a: seq<Market>, b: seq<Market>)
    decreases |b|
  {
    a == [] ||
    (b != [] && if a[0] == b[0] then IsSubsequence(a[1..], b[1..]) else IsSubsequence(a, b[1..]))
  }

  lemma {:induction false} SubsequenceOfSingleton(x: Market, b: seq<Market>)
    ensures IsSubsequence([x], b + [x])
    decreases |b|
  {
    if b != [] && b[0] != x {
      assert (b + [x])[1..] == b[1..] + [x];
      SubsequenceOfSingleton(x, b[1..]);
    }
  }

  lemma {:induction false} SubsequenceSnocRight(a: seq<Market>, b: seq<Market>, x: Market)
    requires IsSubsequence(a, b)
    ensures IsSubsequence(a, b + [x])
    decreases |b|
  {
    if a != [] {
      assert (b + [x])[1..] == b[1..] + [x];
      if a[0] == b[0] {
        SubsequenceSnocRight(a[1..], b[1..], x);
      } else {
        SubsequenceSnocRight(a, b[1..], x);
      }
    }
  }

  lemma {:induction false} SubsequenceSnocBoth(a: seq<Market>, b: seq<Market>, x: Market)
    requires IsSubsequence(a, b)
    ensures IsSubsequence(a + [x], b + [x])
    decreases |b|
  {
    if a == [] {
      assert a + [x] == [x];
      SubsequenceOfSingleton(x, b);
    } else {
      assert (b + [x])[1..] == b[1..] + [x];
      assert (a + [x])[0] == a[0] && (a + [x])[1..] == a[1..] + [x];
      if a[0] == b[0] {
        SubsequenceSnocBoth(a[1..], b[1..], x);
      } else {
        SubsequenceSnocBoth(a, b[1..], x);
      }
    }
  }
}
