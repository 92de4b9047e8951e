/** The canonical categories of the first-page budget, their caps
    (`categoriesPerPage`), and the keyword classifier `getCategoryKey` that maps
    an event's category label to one of them. */
module Categories {
  import opened Markets

  datatype CategoryKey = Politics | Economics | Sports | Entertainment | World | Technology | Other

  /** `categoriesPerPage`: how many first-pass admissions each category gets. */
  const CategoriesPerPage: map<CategoryKey, nat> :=
    map[Politics := 3, Economics := 4, Sports := 4, Entertainment := 3,
        World := 3, Technology := 3, Other := 5]

  /** `categoriesPerPage[category] || categoriesPerPage['Other']`. */
  function Limit(k: CategoryKey): (r: nat)
    ensures r > 0
  {
    if k in CategoriesPerPage && CategoriesPerPage[k] != 0 then CategoriesPerPage[k]
    else CategoriesPerPage[Other]
  }

  /** Every key is in the table with a non-zero cap, so the fallback to the
      Other cap never fires: each category's limit is its own table entry. */
  lemma LimitIsTableEntry(k: CategoryKey)
    ensures k in CategoriesPerPage && Limit(k) == CategoriesPerPage[k]
  {
    match k
    case Politics =>
    case Economics =>
    case Sports =>
    case Entertainment =>
    case World =>
    case Technology =>
    case Other =>
  }

  /** `toLowerCase`, on ASCII letters. */
  function LowerChar(c: char): char
  {
    if 'A' <= c <= 'Z' then (c as int + 32) as char else c
  }

  function ToLower(s: string): string
  {
    seq(|s|, i requires 0 <= i < |s| => LowerChar(s[i]))
  }

  /** `s.includes(pat)`. */
  function Contains(s: string, pat: string): (r: bool)
    decreases |s|
  {
    if |s| < |pat| then false
    else if s[..|pat|] == pat then true
    else Contains(s[1..], pat)
  }

  /** `pat` occurs in `s` starting at index `i`. */
  predicate OccursAt(s: string, pat: string, i: nat)
  {
    i + |pat| <= |s| && s[i..i + |pat|] == pat
  }

  /** `Contains` finds `pat` exactly when it occurs at some position of `s`. */
  lemma {:induction false} ContainsIffOccurs(s: string, pat: string)
    ensures Contains(s, pat) <==> exists i: nat :: OccursAt(s, pat, i)
  {
    if |s| < |pat| {
      forall i: nat ensures !OccursAt(s, pat, i) {}
    } else if s[..|pat|] == pat {
      assert OccursAt(s, pat, 0);
    } else {
      ContainsIffOccurs(s[1..], pat);
      if Contains(s, pat) {
        var i: nat :| OccursAt(s[1..], pat, i);
        assert s[i + 1..i + 1 + |pat|] == s[1..][i..i + |pat|];
        assert OccursAt(s, pat, i + 1);
      } else {
        forall i: nat ensures !OccursAt(s, pat, i) {
          if i > 0 && i + |pat| <= |s| {
            var j: nat := i - 1;
            assert s[1..][j..j + |pat|] == s[i..i + |pat|];
            assert !OccursAt(s[1..], pat, j);
          }
        }
      }
    }
  }

  /** The keywords that send a label to each category. */
  function Keywords(k: CategoryKey): seq<string>
  {
    match k
    case Politics => ["politics", "election"]
    case Economics => ["economics", "finance"]
    case Sports => ["sports"]
    case Entertainment => ["entertainment"]
    case World => ["world", "international"]
    case Technology => ["technology", "tech"]
    case Other => []
  }

  /** The order in which `getCategoryKey` tries the categories. */
  const Priority: seq<CategoryKey> := [Politics, Economics, Sports, Entertainment, World, Technology]

  /** One of the keywords `ws` occurs in `lower`. */
  predicate Mentions(lower: string, ws: seq<string>)
  {
    ws != [] && (Contains(lower, ws[0]) || Mentions(lower, ws[1..]))
  }

  /** A lowercased label mentions one of the keywords of `k`. */
  predicate Matches(lower: string, k: CategoryKey)
  {
    Mentions(lower, Keywords(k))
  }

  /** The first category of `ks` that the label matches, or Other: the
      table-driven reading of the classifier. */
  function FirstMatch(lower: string, ks: seq<CategoryKey>): (r: CategoryKey)
    ensures r == Other <==> forall i :: 0 <= i < |ks| && ks[i] != Other ==> !Matches(lower, ks[i])
    ensures r != Other ==> exists i :: 0 <= i < |ks| && ks[i] == r && Matches(lower, r) &&
                                       forall j :: 0 <= j < i ==> ks[j] == Other || !Matches(lower, ks[j])
  {
    if ks == [] then Other
    else if ks[0] != Other && Matches(lower, ks[0]) then ks[0]
    else
      var r := FirstMatch(lower, ks[1..]);
      assert forall i :: 1 <= i < |ks| ==> ks[i] == ks[1..][i - 1];
      r
  }

  /** `getCategoryKey`: an absent or empty label is Other; otherwise the lowercased
      label is matched against the keywords in a fixed priority order. */
  function GetCategoryKey(category: Option<string>): (r: CategoryKey)
    ensures !TruthyText(category) ==> r == Other
  {
    if !TruthyText(category) then Other
    else
      var lower := ToLower(category.value);
      if Contains(lower, "politics") || Contains(lower, "election") then Politics
      else if Contains(lower, "economics") || Contains(lower, "finance") then Economics
      else if Contains(lower, "sports") then Sports
      else if Contains(lower, "entertainment") then Entertainment
      else if Contains(lower, "world") || Contains(lower, "international") then World
      else if Contains(lower, "technology") || Contains(lower, "tech") then Technology
      else Other
  }

  lemma KeywordPair(lower: string, a: string, b: string)
    ensures Mentions(lower, [a, b]) == (Contains(lower, a) || Contains(lower, b))
  {
    KeywordSingle(lower, b);
    assert [a, b][1..] == [b];
  }

  lemma KeywordSingle(lower: string, a: string)
    ensures Mentions(lower, [a]) == Contains(lower, a)
  {
    assert [a][1..] == [];
    assert !Mentions(lower, []);
  }

  /** The classifier picks the first category in priority order whose keywords
      the lowercased label mentions, and Other when there is none. */
  lemma ClassifierIsFirstMatch(category: Option<string>)
    requires TruthyText(category)
    ensures GetCategoryKey(category) == FirstMatch(ToLower(category.value), Priority)
  {
    var lower := ToLower(category.value);
    KeywordPair(lower, "politics", "election");
    KeywordPair(lower, "economics", "finance");
    KeywordSingle(lower, "sports");
    KeywordSingle(lower, "entertainment");
    KeywordPair(lower, "world", "international");
    KeywordPair(lower, "technology", "tech");
    var p1 := Priority[1..];
    var p2 := p1[1..];
    var p3 := p2[1..];
    var p4 := p3[1..];
    var p5 := p4[1..];
    assert p1 == [Economics, Sports, Entertainment, World, Technology];
    assert p2 == [Sports, Entertainment, World, Technology];
    assert p3 == [Entertainment, World, Technology];
    assert p4 == [World, Technology];
    assert p5 == [Technology] && p5[1..] == [];
    FirstMatchStep(lower, p5);
    FirstMatchStep(lower, p4);
    FirstMatchStep(lower, p3);
    FirstMatchStep(lower, p2);
    FirstMatchStep(lower, p1);
    FirstMatchStep(lower, Priority);
  }

  lemma FirstMatchStep(lower: string, ks: seq<CategoryKey>)
    requires ks != [] && ks[0] != Other
    ensures FirstMatch(lower, ks) == if Matches(lower, ks[0]) then ks[0] else FirstMatch(lower, ks[1..])
  {
  }

  lemma LowerIdempotent(s: string)
    ensures ToLower(ToLower(s)) == ToLower(s)
  {
  }

  /** Classification ignores letter case. */
  lemma {:induction false} ClassificationIgnoresCase(text: string)
    ensures GetCategoryKey(Some(text)) == GetCategoryKey(Some(ToLower(text)))
  {
    LowerIdempotent(text);
    assert |ToLower(text)| == |text|;
  }
}
