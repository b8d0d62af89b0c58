/**
 What each rate card of an accepted Offer says, told from the Offer's pricings alone: one card for each rate of a usage
 pricing and one for a fee, in the order of the pricings.
 */
module OfferCards {
  import opened Common
  import opened Keys
  import opened OfferMapping
  import opened Decimals

  /** What a pricing's cards are made for: each of its rates, or the fee itself. */
  function SourcesOf(sp: ServicePricing): seq<Rule> {
    if sp.chargeType.Usage? then seq(|sp.rates|, i requires 0 <= i < |sp.rates| => Rule(sp, i)) else [Rule(sp, 0)]
  }

  /** The same for the first n pricings, one after the other. */
  function Sources(pricings: seq<ServicePricing>, n: nat): seq<Rule>
    requires n <= |pricings|
  {
    if n == 0 then [] else Sources(pricings, n - 1) + SourcesOf(pricings[n - 1])
  }

  /** A flat rate is a unit price; a tiered one is graduated, band by band. */
  ghost predicate PricedAs(price: CardPrice, rate: Rate) {
    if rate.flat != "" then price == UnitPrice(rate.flat)
    else
      && price.GraduatedPrice? && |price.tiers| == |rate.tiered| > 0
      && forall k :: 0 <= k < |rate.tiered| ==>
           && price.tiers[k].unitPrice == rate.tiered[k].rate
           && price.tiers[k].upTo == if rate.tiered[k].upTo == "" then None else Some(rate.tiered[k].upTo)
  }

  /** How many of a fee are charged: its quantity, one when it has none. */
  function Count(sp: ServicePricing): int {
    Max(sp.quantity, 1)
  }

  /** The fee's total as read by setString, rounded to the places its amount shows; exact for a plain decimal. */
  ghost predicate TotalOf(setString: SetString, total: string, sp: ServicePricing) {
    && ReadAmount(setString, sp.amount).Some? && Parse(total).Some?
    && (var a := ReadAmount(setString, sp.amount).value;
        && Parse(total).value.scale == a.scale
        && RoundsHalfAway(Parse(total).value.units, a.value.num * Count(sp) * Pow10(a.scale), a.value.den))
    && (ReadsPlain(setString) && Parse(sp.amount).Some? ==>
          Parse(total).value == Decimal(Parse(sp.amount).value.units * Count(sp), Parse(sp.amount).value.scale))
  }

  /** A fee's name starts with the pricing's own and says, given a unit or more than one, how many are charged. */
  ghost predicate FeeNamed(name: string, sp: ServicePricing) {
    var own := if sp.displayName == "" then sp.name else sp.displayName;
    own <= name &&
    name[|own|..] ==
      if sp.pricingUnit != "" then ": " + NatText(Count(sp)) + " " + sp.pricingUnit + " \U{D7} $" + sp.amount
      else if sp.quantity > 1 then " \U{D7} " + NatText(sp.quantity)
      else ""
  }

  /** A fee's key: its readable name, or a stand-in, cut to size, and the digest of the name. */
  ghost predicate FeeKeyed(env: Env, key: string, sp: ServicePricing) {
    var text := Sanitized(sp.name, env.lower);
    KeyedBy(key, if text == "" then "flat_fee" else text, env.sha(sp.name), KEY_HASH_LEN)
  }

  /** What the card made for a rate, or for a fee, says. */
  ghost predicate Bills(env: Env, card: RateCard, source: Rule) {
    var sp := source.pricing;
    && (card.monthly <==> sp.chargeType.Usage? || sp.chargeType.Recurring?)
    && card.discount == (if sp.discount == Some(0) then None else sp.discount)
    && card.featureId.None?
    && if sp.chargeType.Usage? then
         && source.index < |sp.rates| && PricedAs(card.price, sp.rates[source.index])
         && card.conversion == sp.conversion
         && card.name == (if sp.displayName == "" then sp.name else sp.displayName)
       else
         && card.price.FlatPrice? && TotalOf(env.setString, card.price.amount, sp)
         && card.conversion.None? && FeeNamed(card.name, sp) && FeeKeyed(env, card.key, sp)
  }

  ghost function BillRule(env: Env): (RateCard, Rule) -> bool {
    (card: RateCard, source: Rule) => Bills(env, card, source)
  }

  /** One card for each source, in order, saying what the source asks for. */
  ghost predicate EachBills(cards: seq<RateCard>, sources: seq<Rule>, p: (RateCard, Rule) -> bool) {
    |cards| == |sources| && forall k :: 0 <= k < |cards| ==> p(cards[k], sources[k])
  }

  function CardsOf(entries: seq<Entry>): seq<RateCard> {
    seq(|entries|, i requires 0 <= i < |entries| => entries[i].card)
  }

  lemma FeeBills(env: Env, sp: ServicePricing)
    requires FeeOk(env.setString, sp) && !sp.chargeType.Usage?
    ensures Bills(env, FeeEntry(sp, FeeKey(env, sp), FeeAmount(env.setString, sp)).card, Rule(sp, 0))
  {
    FallbacksAreKeys();
    assert FeeQuantity(sp) == Count(sp);
    if ReadsPlain(env.setString) && Parse(sp.amount).Some? {
      MultiplyExact(env.setString, sp.amount, Count(sp));
    }
    var a := ReadAmount(env.setString, sp.amount).value;
    FeeNameTail(sp);
  }

  lemma FeeNameTail(sp: ServicePricing)
    ensures FeeNamed(FeeName(sp), sp)
  {
    var own, rest := DisplayName(sp), FeeName(sp)[|DisplayName(sp)|..];
    Appended(own, rest);
  }

  lemma Appended(own: string, rest: string)
    ensures own <= own + rest && (own + rest)[|own|..] == rest
  {
  }

  lemma UsageBills(env: Env, meter: MeterInfo, sp: ServicePricing, i: nat)
    requires sp.chargeType.Usage? && i < |sp.rates| && AllPriced(sp.rates, |sp.rates|)
    ensures Bills(env, CardFor(sp, i, UsageFeatures(env, meter, sp.rates)(sp.rates[i])).card, Rule(sp, i))
  {
    RatePriced(sp.rates, i, |sp.rates|);
  }

  lemma {:induction false} RatePriced(rates: seq<Rate>, i: nat, n: nat)
    requires i < n <= |rates| && AllPriced(rates, n)
    ensures Priced(rates[i])
  {
    if i < n - 1 {
      RatePriced(rates, i, n - 1);
    }
  }

  lemma PricingBills(env: Env, meters: map<string, MeterInfo>, sp: ServicePricing)
    requires PricingOk(env, meters, sp)
    ensures EachBills(CardsOf(EntryRule(env, meters)(sp)), SourcesOf(sp), BillRule(env))
  {
    if sp.chargeType.Usage? {
      var featureOf := UsageFeatures(env, meters[sp.metric], sp.rates);
      forall k | 0 <= k < |sp.rates| ensures BillRule(env)(CardFor(sp, k, featureOf(sp.rates[k])).card, Rule(sp, k)) {
        UsageBills(env, meters[sp.metric], sp, k);
      }
      RatesBill(sp, featureOf, BillRule(env));
    } else {
      var e := FeeEntry(sp, FeeKey(env, sp), FeeAmount(env.setString, sp));
      assert BillRule(env)(e.card, Rule(sp, 0)) by {
        FeeBills(env, sp);
      }
      FeeBill(sp, e, BillRule(env));
    }
  }

  lemma FeeBill(sp: ServicePricing, e: Entry, p: (RateCard, Rule) -> bool)
    requires !sp.chargeType.Usage? && p(e.card, Rule(sp, 0))
    ensures EachBills(CardsOf([e]), SourcesOf(sp), p)
  {
  }

  lemma RatesBill(sp: ServicePricing, featureOf: Rate -> Feature, p: (RateCard, Rule) -> bool)
    requires sp.chargeType.Usage?
    requires forall k :: 0 <= k < |sp.rates| ==> p(CardFor(sp, k, featureOf(sp.rates[k])).card, Rule(sp, k))
    ensures EachBills(CardsOf(UsageEntries(sp, featureOf)), SourcesOf(sp), p)
  {
  }

  lemma {:induction false} EntriesBill(entriesOf: ServicePricing -> seq<Entry>, p: (RateCard, Rule) -> bool,
                                       pricings: seq<ServicePricing>, n: nat)
    requires n <= |pricings|
    requires forall i :: 0 <= i < n ==> EachBills(CardsOf(entriesOf(pricings[i])), SourcesOf(pricings[i]), p)
    ensures EachBills(CardsOf(AllEntries(entriesOf, pricings, n)), Sources(pricings, n), p)
  {
    if n > 0 {
      EntriesBill(entriesOf, p, pricings, n - 1);
      var before, added := AllEntries(entriesOf, pricings, n - 1), entriesOf(pricings[n - 1]);
      assert CardsOf(before + added) == CardsOf(before) + CardsOf(added);
    }
  }

  /** Every card of an accepted Offer says what the pricing it comes from asks for. */
  lemma AcceptedBills(env: Env, meters: map<string, MeterInfo>, pricings: seq<ServicePricing>)
    requires Acceptable(env, meters, pricings)
    ensures EachBills(CardsOf(AllEntries(EntryRule(env, meters), pricings, |pricings|)),
                      Sources(pricings, |pricings|), BillRule(env))
  {
    forall i | 0 <= i < |pricings|
      ensures EachBills(CardsOf(EntryRule(env, meters)(pricings[i])), SourcesOf(pricings[i]), BillRule(env))
    {
      assert FitRule(env, meters)(pricings[i]);
      PricingBills(env, meters, pricings[i]);
    }
    EntriesBill(EntryRule(env, meters), BillRule(env), pricings, |pricings|);
  }
}
