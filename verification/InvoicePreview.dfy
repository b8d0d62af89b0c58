/**
 The first-invoice preview of a contract: one line per flat-fee rate card of the Offer's plan, in order, under the
 card's name, discounted and rounded to the cent, with an exact total.
 */
module InvoicePreview {
  import opened Common
  import opened OfferMapping
  import opened Decimals

  /** A preview line; monthly lines cover the contract's first month. */
  datatype Line = Line(description: string, monthly: bool, amount: string)

  predicate IsFee(sp: ServicePricing) {
    sp.chargeType.OneTime? || sp.chargeType.Recurring?
  }

  function Fees(pricings: seq<ServicePricing>, n: nat): (r: seq<ServicePricing>)
    requires n <= |pricings|
    ensures forall sp :: sp in r ==> sp in pricings && IsFee(sp)
  {
    if n == 0 then [] else Fees(pricings, n - 1) + if IsFee(pricings[n - 1]) then [pricings[n - 1]] else []
  }

  function Percentage(discount: Option<int>): int {
    if discount.Some? then discount.value else 0
  }

  /** The fee's amount after its discount, in cents. */
  function Charged(setString: SetString, sp: ServicePricing): Option<string> {
    match MultiplyAmount(setString, sp.amount, FeeQuantity(sp))
    case None => None
    case Some(amount) => DiscountedAmount(setString, amount, Percentage(sp.discount))
  }

  function PreviewLine(setString: SetString, sp: ServicePricing): Option<Line> {
    match Charged(setString, sp)
    case None => None
    case Some(amount) => Some(Line(FeeName(sp), sp.chargeType.Recurring?, amount))
  }

  function PreviewRule(setString: SetString): ServicePricing -> Option<Line> {
    sp => PreviewLine(setString, sp)
  }

  ghost predicate LinesFor(lines: seq<Line>, fees: seq<ServicePricing>, lineOf: ServicePricing -> Option<Line>) {
    |lines| == |fees| && forall i :: 0 <= i < |fees| ==> lineOf(fees[i]) == Some(lines[i])
  }

  ghost predicate AmountsOf(lines: seq<Line>, amounts: seq<string>) {
    |amounts| == |lines| && forall i :: 0 <= i < |lines| ==> amounts[i] == lines[i].amount
  }

  lemma {:induction false} FeeInFees(pricings: seq<ServicePricing>, n: nat, i: nat)
    requires i < n <= |pricings| && IsFee(pricings[i])
    ensures pricings[i] in Fees(pricings, n)
  {
    if i < n - 1 {
      FeeInFees(pricings, n - 1, i);
    }
  }

  /** The loop over the pricings, for any way of charging a fee. */
  method CollectLines(pricings: seq<ServicePricing>, lineOf: ServicePricing -> Option<Line>)
    returns (ok: bool, lines: seq<Line>, amounts: seq<string>)
    ensures ok ==> LinesFor(lines, Fees(pricings, |pricings|), lineOf) && AmountsOf(lines, amounts)
    ensures !ok ==> exists sp :: sp in Fees(pricings, |pricings|) && lineOf(sp).None?
  {
    lines, amounts := [], [];
    for i := 0 to |pricings|
      invariant LinesFor(lines, Fees(pricings, i), lineOf) && AmountsOf(lines, amounts)
    {
      if IsFee(pricings[i]) {
        var line := lineOf(pricings[i]);
        if line.None? {
          FeeInFees(pricings, |pricings|, i);
          return false, lines, amounts;
        }
        lines := lines + [line.value];
        amounts := amounts + [line.value.amount];
      }
    }
    ok := true;
  }

  /** What a line's amount denotes: the whole cents it was written from. */
  lemma LinesParse(setString: SetString, lines: seq<Line>, amounts: seq<string>, fees: seq<ServicePricing>)
    requires LinesFor(lines, fees, PreviewRule(setString)) && AmountsOf(lines, amounts)
    ensures forall i :: 0 <= i < |amounts| ==> Parse(amounts[i]).Some?
    ensures forall sp :: sp in fees ==> PreviewLine(setString, sp).Some?
  {
    forall i | 0 <= i < |fees| ensures PreviewLine(setString, fees[i]).Some? && Parse(amounts[i]).Some? {
      assert PreviewRule(setString)(fees[i]) == Some(lines[i]);
      assert Charged(setString, fees[i]) == Some(amounts[i]);
    }
  }

  ghost predicate ValuesOf(lines: seq<Line>, values: seq<Decimal>) {
    |values| == |lines| && forall i :: 0 <= i < |lines| ==> Parse(lines[i].amount) == Some(values[i])
  }

  /** firstInvoiceLines: it fails only when some fee cannot be charged, and the total is the exact sum of the lines. */
  method FirstInvoiceLines(setString: SetString, pricings: seq<ServicePricing>)
    returns (ok: bool, lines: seq<Line>, total: string, ghost values: seq<Decimal>)
    requires ReadsPlain(setString)
    ensures ok <==> forall sp :: sp in Fees(pricings, |pricings|) ==> PreviewLine(setString, sp).Some?
    ensures ok ==> LinesFor(lines, Fees(pricings, |pricings|), PreviewRule(setString)) && ValuesOf(lines, values)
    ensures ok ==> Parse(total).Some? && Value(Parse(total).value) == SumOfValues(values, |values|)
  {
    var amounts;
    total, values := "", [];
    ok, lines, amounts := CollectLines(pricings, PreviewRule(setString));
    if !ok {
      return;
    }
    LinesParse(setString, lines, amounts, Fees(pricings, |pricings|));
    values := seq(|amounts|, i requires 0 <= i < |amounts| && Parse(amounts[i]).Some? => Parse(amounts[i]).value);
    total := ExactTotal(setString, amounts, values);
  }

  /** The total of amounts that are plain decimals. */
  method ExactTotal(setString: SetString, amounts: seq<string>, ghost values: seq<Decimal>) returns (total: string)
    requires ReadsPlain(setString) && |values| == |amounts|
    requires forall i :: 0 <= i < |amounts| ==> Parse(amounts[i]) == Some(values[i])
    ensures Parse(total).Some? && Value(Parse(total).value) == SumOfValues(values, |values|)
  {
    forall i | 0 <= i < |amounts| ensures ReadAmount(setString, amounts[i]).Some? {
      ReadPlain(setString, amounts[i]);
    }
    var written, read, sum, scale := AddDecimals(setString, amounts);
    PlainSumExact(setString, amounts, read, values, sum, scale);
    total := written.value;
  }

  // ---- The plan's flat-fee cards ----

  function FlatCards(entries: seq<Entry>): seq<RateCard> {
    FlatCardsIn(entries, |entries|)
  }

  /** Those of the first n entries. */
  function FlatCardsIn(entries: seq<Entry>, n: nat): seq<RateCard>
    requires n <= |entries|
  {
    if n == 0 then []
    else FlatCardsIn(entries, n - 1) + if entries[n - 1].feature.None? then [entries[n - 1].card] else []
  }

  lemma {:induction false} FlatCardsFront(a: seq<Entry>, b: seq<Entry>, n: nat)
    requires n <= |a|
    ensures FlatCardsIn(a + b, n) == FlatCardsIn(a, n)
  {
    if n > 0 {
      FlatCardsFront(a, b, n - 1);
    }
  }

  lemma NoFlatCards(before: seq<Entry>, added: seq<Entry>)
    requires forall i :: 0 <= i < |added| ==> added[i].feature.Some?
    ensures FlatCards(before + added) == FlatCards(before)
  {
    NoMoreFlatCards(before, added, |added|);
  }

  lemma {:induction false} NoMoreFlatCards(before: seq<Entry>, added: seq<Entry>, n: nat)
    requires n <= |added| && forall i :: 0 <= i < |added| ==> added[i].feature.Some?
    ensures FlatCardsIn(before + added, |before| + n) == FlatCards(before)
  {
    if n == 0 {
      FlatCardsFront(before, added, |before|);
    } else {
      NoMoreFlatCards(before, added, n - 1);
      assert (before + added)[|before| + n - 1] == added[n - 1];
    }
  }

  lemma OneFlatCard(before: seq<Entry>, e: Entry)
    requires e.feature.None?
    ensures FlatCards(before + [e]) == FlatCards(before) + [e.card]
  {
    FlatCardsFront(before, [e], |before|);
    assert (before + [e])[|before|] == e;
  }

  /** A fee has one entry, a flat card as p asks; any other pricing has usage entries only. */
  ghost predicate FeeCardOf(sp: ServicePricing, entries: seq<Entry>, p: (RateCard, ServicePricing) -> bool) {
    if IsFee(sp) then |entries| == 1 && entries[0].feature.None? && p(entries[0].card, sp)
    else forall i :: 0 <= i < |entries| ==> entries[i].feature.Some?
  }

  ghost predicate Paired(cards: seq<RateCard>, fees: seq<ServicePricing>, p: (RateCard, ServicePricing) -> bool) {
    |cards| == |fees| && forall i :: 0 <= i < |cards| ==> p(cards[i], fees[i])
  }

  lemma PairedSnoc(cards: seq<RateCard>, fees: seq<ServicePricing>, p: (RateCard, ServicePricing) -> bool,
                   card: RateCard, fee: ServicePricing)
    requires Paired(cards, fees, p) && p(card, fee)
    ensures Paired(cards + [card], fees + [fee], p)
  {
  }

  lemma {:induction false} FlatCardsAreFees(entriesOf: ServicePricing -> seq<Entry>,
                                            p: (RateCard, ServicePricing) -> bool,
                                            pricings: seq<ServicePricing>, n: nat)
    requires n <= |pricings| && forall sp :: FeeCardOf(sp, entriesOf(sp), p)
    ensures Paired(FlatCards(AllEntries(entriesOf, pricings, n)), Fees(pricings, n), p)
  {
    if n > 0 {
      FlatCardsAreFees(entriesOf, p, pricings, n - 1);
      var added := entriesOf(pricings[n - 1]);
      assert FeeCardOf(pricings[n - 1], added, p);
      FlatCardsNext(AllEntries(entriesOf, pricings, n - 1), Fees(pricings, n - 1), p, pricings[n - 1], added);
    }
  }

  /** One more pricing: a fee adds its card, any other adds none. */
  lemma FlatCardsNext(before: seq<Entry>, fees: seq<ServicePricing>, p: (RateCard, ServicePricing) -> bool,
                      sp: ServicePricing, added: seq<Entry>)
    requires Paired(FlatCards(before), fees, p) && FeeCardOf(sp, added, p)
    ensures Paired(FlatCards(before + added), if IsFee(sp) then fees + [sp] else fees, p)
  {
    if IsFee(sp) {
      assert added == [added[0]];
      OneFlatCard(before, added[0]);
      PairedSnoc(FlatCards(before), fees, p, added[0].card, sp);
    } else {
      NoFlatCards(before, added);
    }
  }

  /** A card charges a fee: its name, whole amount and discount are the fee's. */
  function CardOfFee(setString: SetString): (RateCard, ServicePricing) -> bool {
    (card: RateCard, sp: ServicePricing) => ChargesFee(setString, card, sp)
  }

  predicate ChargesFee(setString: SetString, card: RateCard, sp: ServicePricing) {
    && card.name == FeeName(sp) && card.price == FlatPrice(FeeAmount(setString, sp))
    && card.discount == CardDiscount(sp.discount) && card.monthly == sp.chargeType.Recurring?
  }

  lemma EntriesFeeCard(env: Env, meters: map<string, MeterInfo>, sp: ServicePricing)
    ensures FeeCardOf(sp, EntryRule(env, meters)(sp), CardOfFee(env.setString))
  {
    var entries := EntriesOf(env, meters, sp);
    assert EntryRule(env, meters)(sp) == entries;
    if IsFee(sp) {
      assert ChargesFee(env.setString, entries[0].card, sp);
    }
  }

  lemma CompiledFeeCards(env: Env, meters: map<string, MeterInfo>, pricings: seq<ServicePricing>)
    ensures Paired(FlatCards(AllEntries(EntryRule(env, meters), pricings, |pricings|)), Fees(pricings, |pricings|),
                   CardOfFee(env.setString))
  {
    forall sp ensures FeeCardOf(sp, EntryRule(env, meters)(sp), CardOfFee(env.setString)) {
      EntriesFeeCard(env, meters, sp);
    }
    FlatCardsAreFees(EntryRule(env, meters), CardOfFee(env.setString), pricings, |pricings|);
  }

  // ---- Lines against cards ----

  /** text is amount less a percentage, in whole cents: within half a cent, ties away from zero. */
  ghost predicate CentsOf(text: string, amount: string, percentage: int) {
    && Parse(amount).Some?
    && exists cents :: Parse(text) == Some(Decimal(cents, 2))
         && RoundsHalfAway(cents, Parse(amount).value.units * (100 - percentage), Pow10(Parse(amount).value.scale))
  }

  lemma DiscountedInCents(setString: SetString, amount: string, percentage: int)
    requires ReadsPlain(setString) && Parse(amount).Some? && 0 <= percentage <= 100
    ensures DiscountedAmount(setString, amount, percentage).Some?
    ensures CentsOf(DiscountedAmount(setString, amount, percentage).value, amount, percentage)
  {
    DiscountedPlain(setString, amount, percentage);
  }

  ghost predicate LineOfCard(line: Line, card: RateCard) {
    && line.description == card.name && line.monthly == card.monthly && card.price.FlatPrice?
    && (card.discount.None? ==> CentsOf(line.amount, card.price.amount, 0))
    && (card.discount.Some? ==> CentsOf(line.amount, card.price.amount, card.discount.value))
  }

  /** A fee the compiler accepts can be charged, and its line matches its card. */
  lemma LineMatchesCard(setString: SetString, card: RateCard, sp: ServicePricing)
    requires ReadsPlain(setString) && FeeOk(setString, sp) && ChargesFee(setString, card, sp)
    ensures PreviewLine(setString, sp).Some? && LineOfCard(PreviewLine(setString, sp).value, card)
  {
    DiscountedInCents(setString, FeeAmount(setString, sp), Percentage(sp.discount));
  }

  lemma AcceptedFees(env: Env, meters: map<string, MeterInfo>, pricings: seq<ServicePricing>)
    requires Acceptable(env, meters, pricings)
    ensures forall sp :: sp in Fees(pricings, |pricings|) ==> FeeOk(env.setString, sp)
  {
    forall sp | sp in Fees(pricings, |pricings|) ensures FeeOk(env.setString, sp) {
      var i :| 0 <= i < |pricings| && pricings[i] == sp;
      assert FitRule(env, meters)(pricings[i]);
    }
  }

  lemma PairedLines(setString: SetString, fees: seq<ServicePricing>, cards: seq<RateCard>, lines: seq<Line>)
    requires ReadsPlain(setString) && Paired(cards, fees, CardOfFee(setString))
    requires forall sp :: sp in fees ==> FeeOk(setString, sp)
    ensures forall sp :: sp in fees ==> PreviewLine(setString, sp).Some?
    ensures LinesFor(lines, fees, PreviewRule(setString)) ==>
      |lines| == |cards| && forall i :: 0 <= i < |lines| ==> LineOfCard(lines[i], cards[i])
  {
    forall i | 0 <= i < |fees|
      ensures PreviewLine(setString, fees[i]).Some? && LineOfCard(PreviewLine(setString, fees[i]).value, cards[i])
    {
      assert CardOfFee(setString)(cards[i], fees[i]);
      LineMatchesCard(setString, cards[i], fees[i]);
    }
    if LinesFor(lines, fees, PreviewRule(setString)) {
      forall i | 0 <= i < |lines| ensures LineOfCard(lines[i], cards[i]) {
        assert PreviewRule(setString)(fees[i]) == Some(lines[i]);
      }
    }
  }

  /**
   For every accepted Offer, whatever the notation of its amounts, every fee can be charged, and the lines are one per
   flat-fee card, in order, each matching its card.
   */
  lemma PreviewMatchesPlan(env: Env, meters: map<string, MeterInfo>, pricings: seq<ServicePricing>,
                           cards: seq<RateCard>, lines: seq<Line>)
    requires Acceptable(env, meters, pricings) && ReadsPlain(env.setString)
    requires cards == FlatCards(AllEntries(EntryRule(env, meters), pricings, |pricings|))
    ensures forall sp :: sp in Fees(pricings, |pricings|) ==> PreviewLine(env.setString, sp).Some?
    ensures LinesFor(lines, Fees(pricings, |pricings|), PreviewRule(env.setString)) ==>
      |lines| == |cards| && forall i :: 0 <= i < |lines| ==> LineOfCard(lines[i], cards[i])
  {
    AcceptedFees(env, meters, pricings);
    CompiledFeeCards(env, meters, pricings);
    PairedLines(env.setString, Fees(pricings, |pricings|), cards, lines);
  }
}
