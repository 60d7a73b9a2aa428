/**
 * One figure of the overview (`OverviewCard.tsx`): the colour, the sign and
 * the magnitude a card shows for its label and value.
 */
module OverviewCard {
  import opened Strings
  import opened Analysis

  /** The colour classes of a card. */
  datatype Tone = Positive | Negative | Neutral

  /** What a card shows next to its title: sign, currency symbol, then the magnitude. */
  datatype CardView = CardView(tone: Tone, sign: string, currency: string, magnitude: real)

  const NET_CHANGE: string := "net change"
  const PLUS: string := "+"
  /** U+2212 MINUS SIGN, not the ASCII hyphen. */
  const MINUS: string := "\U{2212}"

  /** The card reports the net change when its title is "net change" in any letter case. */
  predicate IsNetChange(title: string) {
    Lower(title) == NET_CHANGE
  }

  /**
   * The card for label `title` and `value`; `showSign` is off unless the caller
   * turns it on. Only the net-change card is coloured and signed.
   */
  function Card(title: string, value: real, currency: string, showSign: bool := false): (v: CardView)
    ensures v.tone == Positive <==> IsNetChange(title) && value > 0.0
    ensures v.tone == Negative <==> IsNetChange(title) && value < 0.0
    ensures v.tone == Neutral <==> !IsNetChange(title) || value == 0.0
    ensures v.sign == PLUS <==> IsNetChange(title) && showSign && value > 0.0
    ensures v.sign == MINUS <==> IsNetChange(title) && showSign && value < 0.0
    ensures v.sign == [] <==> !(IsNetChange(title) && showSign) || value == 0.0
    ensures v.magnitude >= 0.0 && (v.magnitude == value || v.magnitude == -value)
    ensures v.currency == currency
  {
    var isNetChange := IsNetChange(title);
    var tone := if isNetChange then (if value > 0.0 then Positive else if value < 0.0 then Negative else Neutral)
                else Neutral;
    var sign := if isNetChange && showSign && value != 0.0 then (if value > 0.0 then PLUS else MINUS) else "";
    CardView(tone, sign, currency, Abs(value))
  }

  /** Reading the sign and the magnitude back gives the value of a signed net-change card. */
  lemma SignedCardReadsBack(title: string, value: real, currency: string)
    requires IsNetChange(title)
    ensures var v := Card(title, value, currency, true);
      (if v.sign == MINUS then -v.magnitude else v.magnitude) == value
  {
  }

  /** Any other card shows the magnitude only: a negative balance carries no minus sign. */
  lemma OtherCardsUnsigned(title: string, value: real, currency: string, showSign: bool)
    requires !IsNetChange(title)
    ensures Card(title, value, currency, showSign) == CardView(Neutral, "", currency, Abs(value))
  {
  }

  /** Without `showSign` no card is signed, whatever its value. */
  lemma DefaultUnsigned(title: string, value: real, currency: string)
    ensures Card(title, value, currency).sign == []
    ensures Card(title, value, currency) == Card(title, value, currency, false)
  {
  }

  /** The title test ignores letter case. */
  lemma NetChangeIgnoresCase(title: string)
    ensures IsNetChange(Lower(title)) == IsNetChange(title)
    ensures IsNetChange("Net Change") && IsNetChange("NET CHANGE")
  {
    LowerIdempotent(title);
    assert Lower("Net Change") == NET_CHANGE;
    assert Lower("NET CHANGE") == NET_CHANGE;
  }

  /** The overview's net-change card: final minus initial balance, signed. */
  function NetChangeCard(analysis: SpendBeeAnalysis): CardView
  {
    Card("Net Change", analysis.final_balance - analysis.initial_balance, analysis.currency, true)
  }

  /** The test fixture went from 1000 to 850: a red card reading minus 150. */
  lemma MockNetChange()
    ensures NetChangeCard(MOCK_ANALYSIS) == CardView(Negative, MINUS, "\U{A3}", 150.0)
  {
    NetChangeIgnoresCase("Net Change");
  }
}
