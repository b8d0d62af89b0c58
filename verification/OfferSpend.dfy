/**
 Where spend and bill meet: over a whole billing period, the spend shown for the usage cards of an Offer is what the
 Offer's rules ask for on the events that the subscription was active for.
 */
module OfferSpend {
  import opened Common
  import opened OfferMapping
  import opened OfferCharges
  import OfferFeatures
  import OfferSelection
  import GroupBy
  import Pricing
  import Spend

  /** A metered event and the instant it counts at. */
  datatype Timed = Timed(at: int, event: GroupBy.Event)

  /** The events from lo on and before hi among the first n. */
  function During(timed: seq<Timed>, lo: int, hi: int, n: nat): seq<GroupBy.Event>
    requires n <= |timed|
  {
    if n == 0 then []
    else During(timed, lo, hi, n - 1) + if lo <= timed[n - 1].at < hi then [timed[n - 1].event] else []
  }

  /** The usage points of the selected events among the first n. */
  function PointsOf(timed: seq<Timed>, select: GroupBy.Event -> bool, n: nat): seq<Spend.Point>
    requires n <= |timed|
  {
    if n == 0 then []
    else
      PointsOf(timed, select, n - 1)
      + if select(timed[n - 1].event) then [Spend.Point(timed[n - 1].at, timed[n - 1].event.value)] else []
  }

  ghost predicate NoneNegative(timed: seq<Timed>) {
    forall k :: 0 <= k < |timed| ==> timed[k].event.value >= 0.0
  }

  lemma {:induction false} UsageAppend(points: seq<Spend.Point>, p: Spend.Point, lo: int, hi: int)
    ensures Spend.Usage(points + [p], lo, hi) == Spend.Usage(points, lo, hi) + if lo <= p.at < hi then p.value else 0.0
  {
    if points == [] {
      assert [p][1..] == [] && Spend.Usage([], lo, hi) == 0.0;
      assert [] + [p] == [p];
    } else {
      UsageAppend(points[1..], p, lo, hi);
      assert (points + [p])[1..] == points[1..] + [p];
    }
  }

  lemma {:induction false} QuantityFront(select: GroupBy.Event -> bool, events: seq<GroupBy.Event>,
                                         more: seq<GroupBy.Event>, n: nat)
    requires n <= |events|
    ensures Quantity(select, events + more, n) == Quantity(select, events, n)
  {
    if n > 0 {
      QuantityFront(select, events, more, n - 1);
    }
  }

  lemma QuantityAppend(select: GroupBy.Event -> bool, events: seq<GroupBy.Event>, ev: GroupBy.Event)
    ensures Quantity(select, events + [ev], |events| + 1)
            == Quantity(select, events, |events|) + if select(ev) then ev.value else 0.0
  {
    QuantityFront(select, events, [ev], |events|);
  }

  /** The metered usage of a range is what the selected events of that range add up to. */
  lemma {:induction false} UsageIsQuantity(timed: seq<Timed>, select: GroupBy.Event -> bool, lo: int, hi: int, n: nat)
    requires n <= |timed|
    ensures var events := During(timed, lo, hi, n);
      Spend.Usage(PointsOf(timed, select, n), lo, hi) == Quantity(select, events, |events|)
  {
    if n > 0 {
      UsageIsQuantity(timed, select, lo, hi, n - 1);
      var last := timed[n - 1];
      var events, points := During(timed, lo, hi, n - 1), PointsOf(timed, select, n - 1);
      assert events + [] == events && points + [] == points;
      QuantityAppend(select, events, last.event);
      UsageAppend(points, Spend.Point(last.at, last.event.value), lo, hi);
    }
  }

  lemma {:induction false} PointsNonNegative(timed: seq<Timed>, select: GroupBy.Event -> bool, n: nat)
    requires n <= |timed| && NoneNegative(timed)
    ensures Spend.NonNegative(PointsOf(timed, select, n))
  {
    if n > 0 {
      PointsNonNegative(timed, select, n - 1);
    }
  }

  // ---- Cards as spend sees them ----

  /** A usage card whose conversion, if any, divides by something positive. */
  predicate Showable(card: RateCard, money: string -> real) {
    !card.price.FlatPrice? && (card.conversion.Some? ==> money(card.conversion.value) > 0.0)
  }

  /** A usage card as it is read back from OpenMeter. */
  function Shown(card: RateCard, money: string -> real): (r: Spend.Card)
    requires Showable(card, money)
    ensures r.factor > 0.0
  {
    Spend.Card("", "",
               match card.price
               case UnitPrice(amount) => Pricing.UnitPrice(money(amount))
               case GraduatedPrice(tiers) => Pricing.Graduated(TierValues(tiers, money)),
               if card.conversion.Some? then money(card.conversion.value) else 1.0,
               if card.discount.Some? then card.discount.value as real else 0.0)
  }

  /** Rating usage from the start of a period charges what the bill charges for it. */
  lemma ShownRates(card: RateCard, money: string -> real, q: real)
    requires Showable(card, money)
    ensures Spend.Rate(Shown(card, money), 0.0, q)
            == Discounted(card.discount, CardCharge(card.price, money, Units(card.conversion, money, q)))
  {
    var shown := Shown(card, money);
    var units := Units(card.conversion, money, q);
    assert units == q / shown.factor && 0.0 / shown.factor == 0.0 by {
      Divided(q, shown.factor);
    }
    SameDiscounts(card.discount, CardCharge(card.price, money, units));
    assert CardCharge(card.price, money, units) == Pricing.Charge(shown.price, 0.0, units);
  }

  lemma Divided(q: real, factor: real)
    requires factor > 0.0
    ensures 0.0 / factor == 0.0 && q / 1.0 == q
  {
  }

  lemma SameDiscounts(discount: Option<int>, amount: real)
    ensures Spend.LessDiscount(amount, if discount.Some? then discount.value as real else 0.0)
            == Discounted(discount, amount)
  {
    if discount.Some? {
      assert 100.0 - discount.value as real == (100 - discount.value) as real;
    } else {
      assert amount * (100.0 - 0.0) / 100.0 == amount;
    }
  }

  /** The part of a billing period the subscription was active in, in whole seconds. */
  function ActivePart(sub: Spend.Subscription, p: Period): (int, int) {
    var from := Max(p.from, sub.activeFrom);
    var to := Max(from, if sub.activeTo.Some? then Min(p.to, sub.activeTo.value) else p.to);
    (Spend.Truncate(from), Spend.Truncate(to))
  }

  /** The spend of the billing period around t on one card: of the events its feature counts. */
  ghost function EntrySpend(e: Entry, remote: map<string, Meter>, money: string -> real, timed: seq<Timed>,
                            sub: Spend.Subscription, periods: Spend.Recurrence, t: int): real {
    if e.feature.None? || !Showable(e.card, money) then 0.0
    else
      Spend.CardSpend(sub, Shown(e.card, money), PointsOf(timed, Selection(remote, e.feature.value), |timed|), periods,
                      periods(t).from, periods(t).to)
  }

  ghost function EntrySpends(entries: seq<Entry>, remote: map<string, Meter>, money: string -> real,
                             timed: seq<Timed>, sub: Spend.Subscription, periods: Spend.Recurrence, t: int)
    : nat -> real {
    (i: nat) => if i < |entries| then EntrySpend(entries[i], remote, money, timed, sub, periods, t) else 0.0
  }

  /** On one card: the spend of the period is the bill for the events of its active part. */
  lemma CardSpendIsBill(e: Entry, remote: map<string, Meter>, money: string -> real, timed: seq<Timed>,
                        sub: Spend.Subscription, periods: Spend.Recurrence, t: int)
    requires NoneNegative(timed) && (e.feature.Some? ==> Showable(e.card, money))
    ensures var (lo, hi) := ActivePart(sub, periods(t));
      EntrySpend(e, remote, money, timed, sub, periods, t)
      == CardBill(e, remote, money, During(timed, lo, hi, |timed|))
  {
    if e.feature.Some? {
      var (lo, hi) := ActivePart(sub, periods(t));
      var select := Selection(remote, e.feature.value);
      var events := During(timed, lo, hi, |timed|);
      PointsNonNegative(timed, select, |timed|);
      Spend.WholePeriodSpend(sub, Shown(e.card, money), PointsOf(timed, select, |timed|), periods, t);
      UsageIsQuantity(timed, select, lo, hi, |timed|);
      ShownRates(e.card, money, Quantity(select, events, |events|));
    }
  }

  // ---- A whole Offer ----

  ghost predicate Sold(e: Entry, money: string -> real) {
    e.feature.Some? ==> Showable(e.card, money)
  }

  ghost function SoldRule(money: string -> real): Entry -> bool {
    e => Sold(e, money)
  }

  /** The entries of an accepted pricing can be shown: usage has its own price and converts by a positive factor. */
  lemma PricingSold(env: Env, meters: map<string, MeterInfo>, sp: ServicePricing, money: string -> real)
    requires PricingOk(env, meters, sp) && forall s :: env.isPositive(s) ==> money(s) > 0.0
    ensures OfferFeatures.Each(EntryRule(env, meters)(sp), SoldRule(money))
  {
    if sp.chargeType.Usage? {
      CompiledCards(env, meters, sp);
      var entries := EntriesOf(env, meters, sp);
      forall i | 0 <= i < |entries| ensures Sold(entries[i], money) {
        CardSold(sp, meters[sp.metric].slug, entries[i], i, money);
      }
    }
  }

  lemma CardSold(sp: ServicePricing, slug: string, e: Entry, i: nat, money: string -> real)
    requires CardOf(sp, slug, e, i) && (sp.conversion.Some? ==> money(sp.conversion.value) > 0.0)
    ensures Sold(e, money)
  {
  }

  lemma {:induction false} EntriesSold(entriesOf: ServicePricing -> seq<Entry>, p: Entry -> bool,
                                       pricings: seq<ServicePricing>, n: nat)
    requires n <= |pricings| && forall i :: 0 <= i < n ==> OfferFeatures.Each(entriesOf(pricings[i]), p)
    ensures OfferFeatures.Each(AllEntries(entriesOf, pricings, n), p)
  {
    if n > 0 {
      EntriesSold(entriesOf, p, pricings, n - 1);
    }
  }

  lemma OfferSold(env: Env, meters: map<string, MeterInfo>, pricings: seq<ServicePricing>, money: string -> real)
    requires Acceptable(env, meters, pricings) && forall s :: env.isPositive(s) ==> money(s) > 0.0
    ensures OfferFeatures.Each(AllEntries(EntryRule(env, meters), pricings, |pricings|), SoldRule(money))
  {
    forall i | 0 <= i < |pricings| ensures OfferFeatures.Each(EntryRule(env, meters)(pricings[i]), SoldRule(money)) {
      assert FitRule(env, meters)(pricings[i]);
      PricingSold(env, meters, pricings[i], money);
    }
    EntriesSold(EntryRule(env, meters), SoldRule(money), pricings, |pricings|);
  }

  lemma SpendsAreBills(entries: seq<Entry>, remote: map<string, Meter>, money: string -> real, timed: seq<Timed>,
                       sub: Spend.Subscription, periods: Spend.Recurrence, t: int)
    requires NoneNegative(timed) && OfferFeatures.Each(entries, SoldRule(money))
    ensures var (lo, hi) := ActivePart(sub, periods(t));
      Total(EntrySpends(entries, remote, money, timed, sub, periods, t), |entries|)
      == Total(CardBills(entries, remote, money, During(timed, lo, hi, |timed|)), |entries|)
  {
    var (lo, hi) := ActivePart(sub, periods(t));
    var f := EntrySpends(entries, remote, money, timed, sub, periods, t);
    var g := CardBills(entries, remote, money, During(timed, lo, hi, |timed|));
    forall i: nat | i < |entries| ensures f(i) == g(i) {
      assert SoldRule(money)(entries[i]);
      CardSpendIsBill(entries[i], remote, money, timed, sub, periods, t);
    }
    TotalSame(f, g, |entries|);
  }

  /** The usage pricings are well read and their meters are provisioned. */
  ghost predicate Provided(meters: map<string, MeterInfo>, pricings: seq<ServicePricing>, remote: map<string, Meter>) {
    forall i :: 0 <= i < |pricings| && pricings[i].chargeType.Usage? ==>
      && OfferSelection.WellRead(pricings[i].rates) && pricings[i].metric in meters
      && Provisioned(meters[pricings[i].metric], pricings[i].metric, remote)
  }

  /** The entries bill what the rules ask for. */
  ghost predicate BillsAsAsked(entries: seq<Entry>, pricings: seq<ServicePricing>, remote: map<string, Meter>,
                               money: string -> real, events: seq<GroupBy.Event>) {
    Total(CardBills(entries, remote, money, events), |entries|) == OfferBill(pricings, money, events, |pricings|)
  }

  lemma AcceptedBillsAsAsked(env: Env, meters: map<string, MeterInfo>, pricings: seq<ServicePricing>,
                             remote: map<string, Meter>, money: string -> real, events: seq<GroupBy.Event>)
    requires Acceptable(env, meters, pricings) && Provided(meters, pricings, remote)
    ensures BillsAsAsked(AllEntries(EntryRule(env, meters), pricings, |pricings|), pricings, remote, money, events)
  {
    MeaningPreserved(env, meters, pricings, remote, money, events,
                     AllEntries(EntryRule(env, meters), pricings, |pricings|));
  }

  /**
   For every accepted Offer whose pricings are well read, on provisioned meters: the spend of a whole billing period,
   added up over the usage cards, is what the rules ask for, event by event, on the events of the period while the
   subscription was active.
   */
  lemma SpendIsWhatRulesAsk(env: Env, meters: map<string, MeterInfo>, pricings: seq<ServicePricing>,
                            remote: map<string, Meter>, money: string -> real, timed: seq<Timed>,
                            sub: Spend.Subscription, periods: Spend.Recurrence, t: int)
    requires Acceptable(env, meters, pricings) && Provided(meters, pricings, remote)
    requires NoneNegative(timed) && forall s :: env.isPositive(s) ==> money(s) > 0.0
    ensures var (lo, hi) := ActivePart(sub, periods(t));
      var entries := AllEntries(EntryRule(env, meters), pricings, |pricings|);
      Total(EntrySpends(entries, remote, money, timed, sub, periods, t), |entries|)
      == OfferBill(pricings, money, During(timed, lo, hi, |timed|), |pricings|)
  {
    var (lo, hi) := ActivePart(sub, periods(t));
    OfferSold(env, meters, pricings, money);
    AcceptedBillsAsAsked(env, meters, pricings, remote, money, During(timed, lo, hi, |timed|));
    SpendsAreBills(AllEntries(EntryRule(env, meters), pricings, |pricings|), remote, money, timed, sub, periods, t);
  }
}
