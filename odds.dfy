/** The display helpers of a market card that compute something: the midpoint
    odds estimate, the outcome options and the question text. */
module Odds {
  import opened Markets

  /** `Math.round(s / 2)` for an integer s: a half rounds up, toward +infinity. */
  function HalfRoundedUp(s: int): (r: int)
    ensures 2 * r - 1 <= s <= 2 * r
  {
    (s + 1) / 2
  }

  /** `calculateOdds(bid, ask)`: the midpoint when both prices are truthy, the one
      truthy price when only one is, and 0 otherwise. */
  function CalculateOdds(bid: JsNumber, ask: JsNumber): (r: int)
    ensures Truthy(bid) && Truthy(ask) ==> 2 * r - 1 <= bid.value + ask.value <= 2 * r
    ensures Truthy(bid) && !Truthy(ask) ==> r == bid.value
    ensures !Truthy(bid) && Truthy(ask) ==> r == ask.value
    ensures !Truthy(bid) && !Truthy(ask) ==> r == 0
  {
    if Truthy(bid) && Truthy(ask) then HalfRoundedUp(bid.value + ask.value)
    else if Truthy(bid) then bid.value
    else if Truthy(ask) then ask.value
    else 0
  }

  /** `100 - p` in JavaScript: undefined and NaN give NaN, null counts as 0. */
  function Complement(p: JsNumber): (r: JsNumber)
    ensures p.Num? ==> r == Num(100 - p.value)
    ensures p.Null? ==> r == Num(100)
    ensures (p.Undefined? || p.NaN?) ==> r == NaN
  {
    match p
    case Undefined => NaN
    case NaN => NaN
    case Null => Num(100)
    case Num(v) => Num(100 - v)
  }

  /** The worked examples of the odds estimate, including a 0 bid counting as absent. */
  lemma OddsExamples()
    ensures CalculateOdds(Num(30), Num(40)) == 35
    ensures CalculateOdds(Num(30), Undefined) == 30
    ensures CalculateOdds(Undefined, Undefined) == 0
    ensures CalculateOdds(Num(0), Num(40)) == 40
    ensures CalculateOdds(Num(35), Num(40)) == 38
    ensures CalculateOdds(Num(0), Num(41)) == 41 && CalculateOdds(Complement(Num(41)), Complement(Num(0))) == 80
  {
  }

  /** Prices that are percentages give an estimate that is a percentage. */
  lemma OddsArePercentages(bid: JsNumber, ask: JsNumber)
    requires bid.Num? ==> 0 <= bid.value <= 100
    requires ask.Num? ==> 0 <= ask.value <= 100
    ensures 0 <= CalculateOdds(bid, ask) <= 100
  {
  }

  /** For a two-sided book strictly inside (0, 100), the "yes" and "no" estimates
      add up to 100, or to 101 when the midpoint is a half (both halves round up). */
  lemma YesNoOddsSum(bid: int, ask: int)
    requires 0 < bid < 100 && 0 < ask < 100
    ensures CalculateOdds(Num(bid), Num(ask)) + CalculateOdds(Complement(Num(ask)), Complement(Num(bid)))
            == if (bid + ask) % 2 == 0 then 100 else 101
  {
  }

  /** One option line of a market card. */
  datatype MarketOption = MarketOption(name: string, odds: int)

  /** `getMarketOptions`: a yes/no pair when both outcome sub-titles are there or
      when neither a yes sub-title nor a generic sub-title is there (then named
      "Yes"/"No"); otherwise the single option the yes or generic sub-title names.
      The first option always carries the yes odds, a second one the odds of the
      complementary book `(100 - ask, 100 - bid)`. */
  function GetMarketOptions(m: Market): (r: seq<MarketOption>)
    ensures |r| == 1 || |r| == 2
    ensures |r| == 2 <==>
      (TruthyText(m.raw.yesSubTitle) && TruthyText(m.raw.noSubTitle)) ||
      (!TruthyText(m.raw.yesSubTitle) && !TruthyText(m.raw.subTitle))
    ensures r[0].odds == CalculateOdds(m.raw.yesBid, m.raw.yesAsk)
    ensures |r| == 2 ==> r[1].odds == CalculateOdds(Complement(m.raw.yesAsk), Complement(m.raw.yesBid))
    ensures r[0].name ==
      if TruthyText(m.raw.yesSubTitle) then m.raw.yesSubTitle.value
      else if TruthyText(m.raw.subTitle) then m.raw.subTitle.value
      else "Yes"
    ensures |r| == 2 ==> r[1].name == if TruthyText(m.raw.yesSubTitle) then m.raw.noSubTitle.value else "No"
  {
    var raw := m.raw;
    var yesOdds := CalculateOdds(raw.yesBid, raw.yesAsk);
    if TruthyText(raw.yesSubTitle) && TruthyText(raw.noSubTitle) then
      [MarketOption(raw.yesSubTitle.value, yesOdds),
       MarketOption(raw.noSubTitle.value, CalculateOdds(Complement(raw.yesAsk), Complement(raw.yesBid)))]
    else if TruthyText(raw.yesSubTitle) then
      [MarketOption(raw.yesSubTitle.value, yesOdds)]
    else if TruthyText(raw.subTitle) then
      [MarketOption(raw.subTitle.value, yesOdds)]
    else
      [MarketOption("Yes", yesOdds),
       MarketOption("No", CalculateOdds(Complement(raw.yesAsk), Complement(raw.yesBid)))]
  }

  /** The characters `String.prototype.trim` removes: white space and line terminators. */
  predicate IsTrimmed(c: char)
  {
    c == '\t' || c == '\n' || c == '\U{000B}' || c == '\U{000C}' || c == '\r' || c == ' ' ||
    c == '\U{00A0}' || c == '\U{1680}' || ('\U{2000}' <= c <= '\U{200A}') ||
    c == '\U{2028}' || c == '\U{2029}' || c == '\U{202F}' || c == '\U{205F}' ||
    c == '\U{3000}' || c == '\U{FEFF}'
  }

  /** `s.trim() === ''`. */
  predicate Blank(s: string)
  {
    forall i :: 0 <= i < |s| ==> IsTrimmed(s[i])
  }

  /** A text field that is present and not blank. */
  predicate HasText(s: Option<string>)
  {
    s.Some? && !Blank(s.value)
  }

  /** `getMarketQuestion`: the first of title, name and generic sub-title that is
      not blank, else "Market Question"; so the question is never blank. */
  function GetMarketQuestion(m: Market): (r: string)
    ensures !Blank(r)
    ensures HasText(m.raw.title) ==> r == m.raw.title.value
    ensures !HasText(m.raw.title) && HasText(m.raw.name) ==> r == m.raw.name.value
    ensures !HasText(m.raw.title) && !HasText(m.raw.name) && HasText(m.raw.subTitle) ==> r == m.raw.subTitle.value
    ensures !HasText(m.raw.title) && !HasText(m.raw.name) && !HasText(m.raw.subTitle) ==> r == "Market Question"
  {
    if HasText(m.raw.title) then m.raw.title.value
    else if HasText(m.raw.name) then m.raw.name.value
    else if HasText(m.raw.subTitle) then m.raw.subTitle.value
    else
      assert !IsTrimmed("Market Question"[0]);
      "Market Question"
  }
}
