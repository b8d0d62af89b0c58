/**
 What an Offer charges. Read directly, its rules rate events one by one: each event goes to the rate that prices it
 and pays the difference it makes to that rate's running total. OpenMeter instead adds up each rate card's usage on
 its own and prices the sum. The two agree for every sequence of events.
 */
module OfferCharges {
  import opened Common
  import opened OfferMapping
  import opened GroupBy
  import opened OfferSelection
  import Pricing

  // ---- Sums ----

  /** f(0) + ... + f(n - 1) */
  function Total(f: nat -> real, n: nat): real {
    if n == 0 then 0.0 else Total(f, n - 1) + f(n - 1)
  }

  lemma {:induction false} TotalSame(f: nat -> real, g: nat -> real, n: nat)
    requires forall i: nat :: i < n ==> f(i) == g(i)
    ensures Total(f, n) == Total(g, n)
  {
    if n > 0 {
      TotalSame(f, g, n - 1);
    }
  }

  lemma {:induction false} TotalUpdate(f: nat -> real, g: nat -> real, n: nat, k: nat)
    requires k < n && forall i: nat :: i < n && i != k ==> f(i) == g(i)
    ensures Total(g, n) == Total(f, n) + g(k) - f(k)
  {
    if k == n - 1 {
      TotalSame(f, g, n - 1);
    } else {
      TotalUpdate(f, g, n - 1, k);
    }
  }

  /** The usage the first n events add up to, among those selected. */
  function Quantity(select: Event -> bool, events: seq<Event>, n: nat): real
    requires n <= |events|
  {
    if n == 0 then 0.0
    else Quantity(select, events, n - 1) + if select(events[n - 1]) then events[n - 1].value else 0.0
  }

  lemma {:induction false} QuantitySame(p: Event -> bool, q: Event -> bool, events: seq<Event>, n: nat)
    requires n <= |events| && forall k :: 0 <= k < n ==> p(events[k]) == q(events[k])
    ensures Quantity(p, events, n) == Quantity(q, events, n)
  {
    if n > 0 {
      QuantitySame(p, q, events, n - 1);
    }
  }

  // ---- Rating event by event ----

  /** The events rule i prices. */
  function Goes(rule: Event -> Option<nat>, i: nat): Event -> bool {
    ev => rule(ev) == Some(i)
  }

  /** Rate the first n events in order, each at what it adds to the charge of its own rate. */
  function Streamed(rule: Event -> Option<nat>, charge: (nat, real) -> real, events: seq<Event>, n: nat): real
    requires n <= |events|
  {
    if n == 0 then 0.0
    else
      var ev, before := events[n - 1], Streamed(rule, charge, events, n - 1);
      match rule(ev)
      case None => before
      case Some(i) =>
        var running := Quantity(Goes(rule, i), events, n - 1);
        before + charge(i, running + ev.value) - charge(i, running)
  }

  /** Each rule's charge for all the usage it prices. */
  function Aggregated(rule: Event -> Option<nat>, charge: (nat, real) -> real, events: seq<Event>, n: nat): nat -> real
    requires n <= |events|
  {
    (i: nat) => charge(i, Quantity(Goes(rule, i), events, n))
  }

  /** Rating events one by one is the same as rating each rule's total, whatever the order of the events. */
  lemma {:induction false} StreamedIsAggregated(rule: Event -> Option<nat>, charge: (nat, real) -> real,
                                                events: seq<Event>, n: nat, m: nat)
    requires n <= |events|
    requires forall i: nat :: i < m ==> charge(i, 0.0) == 0.0
    requires forall ev :: rule(ev).Some? ==> rule(ev).value < m
    ensures Streamed(rule, charge, events, n) == Total(Aggregated(rule, charge, events, n), m)
  {
    if n == 0 {
      var f := Aggregated(rule, charge, events, 0);
      forall i: nat | i < m ensures f(i) == 0.0 {
        assert f(i) == charge(i, Quantity(Goes(rule, i), events, 0));
      }
      TotalZero(f, m);
    } else {
      StreamedIsAggregated(rule, charge, events, n - 1, m);
      var f, g := Aggregated(rule, charge, events, n - 1), Aggregated(rule, charge, events, n);
      var ev := events[n - 1];
      forall i: nat
        ensures f(i) == charge(i, Quantity(Goes(rule, i), events, n - 1))
        ensures g(i) == charge(i, Quantity(Goes(rule, i), events, n - 1)
                                  + if rule(ev) == Some(i) then ev.value else 0.0)
      {
        var select := Goes(rule, i);
        assert select(ev) <==> rule(ev) == Some(i);
        assert Quantity(select, events, n) == Quantity(select, events, n - 1) + if select(ev) then ev.value else 0.0;
      }
      match rule(ev)
      case None => TotalSame(f, g, m);
      case Some(k) => TotalUpdate(f, g, m, k);
    }
  }

  lemma {:induction false} TotalZero(f: nat -> real, n: nat)
    requires forall i: nat :: i < n ==> f(i) == 0.0
    ensures Total(f, n) == 0.0
  {
    if n > 0 {
      TotalZero(f, n - 1);
    }
  }

  // ---- Rates ----

  /** The charge for q units that start at lower: fill band after band. */
  function Walk(bands: seq<Band>, money: string -> real, lower: real, q: real): real
    decreases |bands|
  {
    if bands == [] || q <= lower then 0.0
    else
      var rate := money(bands[0].rate);
      if bands[0].upTo == "" then (q - lower) * rate
      else
        var upper := money(bands[0].upTo);
        if upper <= lower then Walk(bands[1..], money, lower, q)
        else if q <= upper then (q - lower) * rate
        else (upper - lower) * rate + Walk(bands[1..], money, upper, q)
  }

  function RateCharge(rate: Rate, money: string -> real, q: real): real {
    if rate.flat != "" then q * money(rate.flat) else Walk(rate.tiered, money, 0.0, q)
  }

  function TierValue(tier: CardTier, money: string -> real): Pricing.Tier {
    Pricing.Tier(if tier.upTo.Some? then Some(money(tier.upTo.value)) else None, money(tier.unitPrice))
  }

  function TierValues(tiers: seq<CardTier>, money: string -> real): (r: seq<Pricing.Tier>)
    ensures |r| == |tiers|
  {
    seq(|tiers|, i requires 0 <= i < |tiers| => TierValue(tiers[i], money))
  }

  /** What OpenMeter charges for q units under a card's price. */
  function CardCharge(price: CardPrice, money: string -> real, q: real): real {
    match price
    case UnitPrice(amount) => Pricing.Charge(Pricing.UnitPrice(money(amount)), 0.0, q)
    case GraduatedPrice(tiers) => Pricing.Charge(Pricing.Graduated(TierValues(tiers, money)), 0.0, q)
    case FlatPrice(amount) => money(amount)
  }

  function TiersOf(bands: seq<Band>): (r: seq<CardTier>)
    ensures |r| == |bands|
  {
    seq(|bands|, i requires 0 <= i < |bands| => TierOf(bands[i]))
  }

  lemma {:induction false} BeyondCostsNothing(tiers: seq<Pricing.Tier>, lower: real, q: real)
    requires q <= lower && 0.0 <= lower
    ensures Pricing.Cost(tiers, Pricing.Portions(tiers, lower, 0.0, q)) == 0.0
    decreases |tiers|
  {
    if tiers != [] {
      var upTo := tiers[0].upTo;
      assert Pricing.Overlap(lower, upTo, 0.0, q) == 0.0;
      if upTo.Some? {
        BeyondCostsNothing(tiers[1..], Pricing.Greater(lower, upTo.value), q);
      }
    }
  }

  lemma {:induction false} WalkIsCost(bands: seq<Band>, tiers: seq<Pricing.Tier>, money: string -> real, lower: real,
                                      q: real)
    requires 0.0 <= lower && tiers == TierValues(TiersOf(bands), money)
    ensures Walk(bands, money, lower, q) == Pricing.Cost(tiers, Pricing.Portions(tiers, lower, 0.0, q))
    decreases |bands|
  {
    if q <= lower {
      BeyondCostsNothing(tiers, lower, q);
    } else if bands == [] {
    } else if bands[0].upTo == "" {
      CostCons(tiers, Pricing.Overlap(lower, None, 0.0, q), []);
    } else {
      TailTiers(bands, money);
      WalkIsCost(bands[1..], tiers[1..], money, Pricing.Greater(lower, money(bands[0].upTo)), q);
      BoundedBand(bands, tiers, money, lower, q);
    }
  }

  lemma BoundedBand(bands: seq<Band>, tiers: seq<Pricing.Tier>, money: string -> real, lower: real, q: real)
    requires 0.0 <= lower < q && bands != [] && bands[0].upTo != "" && tiers == TierValues(TiersOf(bands), money)
    requires var rest := Pricing.Greater(lower, money(bands[0].upTo));
      Walk(bands[1..], money, rest, q) == Pricing.Cost(tiers[1..], Pricing.Portions(tiers[1..], rest, 0.0, q))
    ensures Walk(bands, money, lower, q) == Pricing.Cost(tiers, Pricing.Portions(tiers, lower, 0.0, q))
  {
    assert tiers[0] == TierValue(TierOf(bands[0]), money);
    var upper, price := money(bands[0].upTo), money(bands[0].rate);
    var rest := Walk(bands[1..], money, Pricing.Greater(lower, upper), q);
    WalkHead(bands, money, lower, q);
    CostHead(tiers, price, lower, upper, q);
    HeadAgrees(price, lower, upper, q, rest);
    SameSum(Walk(bands, money, lower, q), price * Pricing.Overlap(lower, Some(upper), 0.0, q), rest,
            Pricing.Cost(tiers, Pricing.Portions(tiers, lower, 0.0, q)));
  }

  lemma SameSum(walk: real, share: real, rest: real, cost: real)
    requires walk == share + rest && cost == share + rest
    ensures walk == cost
  {
  }

  /** A bounded band's share and what follows it, written as the walk does. */
  function Head(rate: real, lower: real, upper: real, q: real, rest: real): real {
    if upper <= lower then rest
    else if q <= upper then (q - lower) * rate
    else (upper - lower) * rate + rest
  }

  lemma WalkHead(bands: seq<Band>, money: string -> real, lower: real, q: real)
    requires bands != [] && bands[0].upTo != "" && lower < q
    ensures var upper := money(bands[0].upTo); var rest := Walk(bands[1..], money, Pricing.Greater(lower, upper), q);
      && Walk(bands, money, lower, q) == Head(money(bands[0].rate), lower, upper, q, rest)
      && (q <= upper ==> rest == 0.0)
  {
  }

  lemma HeadAgrees(rate: real, lower: real, upper: real, q: real, rest: real)
    requires 0.0 <= lower < q && (q <= upper ==> rest == 0.0)
    ensures Head(rate, lower, upper, q, rest) == rate * Pricing.Overlap(lower, Some(upper), 0.0, q) + rest
  {
  }

  lemma CostHead(tiers: seq<Pricing.Tier>, price: real, lower: real, upper: real, q: real)
    requires tiers != [] && tiers[0] == Pricing.Tier(Some(upper), price)
    ensures Pricing.Cost(tiers, Pricing.Portions(tiers, lower, 0.0, q))
            == price * Pricing.Overlap(lower, Some(upper), 0.0, q)
               + Pricing.Cost(tiers[1..], Pricing.Portions(tiers[1..], Pricing.Greater(lower, upper), 0.0, q))
  {
    CostCons(tiers, Pricing.Overlap(lower, Some(upper), 0.0, q),
             Pricing.Portions(tiers[1..], Pricing.Greater(lower, upper), 0.0, q));
  }

  lemma TailTiers(bands: seq<Band>, money: string -> real)
    requires bands != []
    ensures TierValues(TiersOf(bands[1..]), money) == TierValues(TiersOf(bands), money)[1..]
  {
  }

  lemma CostCons(tiers: seq<Pricing.Tier>, x: real, rest: seq<real>)
    requires tiers != [] && |rest| < |tiers|
    ensures Pricing.Cost(tiers, [x] + rest) == tiers[0].unitPrice * x + Pricing.Cost(tiers[1..], rest)
  {
    assert ([x] + rest)[1..] == rest;
  }

  /** The graduated price built from the bands charges what walking the bands charges. */
  lemma PriceIsRate(rate: Rate, money: string -> real, q: real)
    requires Priced(rate)
    ensures CardCharge(UsagePrice(rate).value, money, q) == RateCharge(rate, money, q)
  {
    if rate.flat == "" {
      WalkIsCost(rate.tiered, TierValues(TiersOf(rate.tiered), money), money, 0.0, q);
      assert UsagePrice(rate).value == GraduatedPrice(TiersOf(rate.tiered));
    }
  }

  // ---- A whole Offer ----

  /** A meter as OpenMeter has it: the event type it counts, and its group-by paths. */
  datatype Meter = Meter(eventType: string, groupBy: map<string, string>)

  function Units(conversion: Option<string>, money: string -> real, q: real): real {
    if conversion.None? || money(conversion.value) == 0.0 then q else q / money(conversion.value)
  }

  function Discounted(discount: Option<int>, amount: real): real {
    if discount.None? then amount else amount * (100 - discount.value) as real / 100.0
  }

  /** The events a feature counts. */
  ghost function Selection(remote: map<string, Meter>, feature: Feature): Event -> bool {
    (ev: Event) =>
      && feature.meterSlug in remote && PathsOk(remote[feature.meterSlug].groupBy)
      && ev.meterName == remote[feature.meterSlug].eventType
      && Selects(remote[feature.meterSlug].groupBy, feature.filter, ev)
  }

  /** What OpenMeter bills for a usage card: its own usage, converted, priced and discounted. */
  ghost function CardBill(e: Entry, remote: map<string, Meter>, money: string -> real, events: seq<Event>): real {
    if e.feature.None? then 0.0
    else
      var usage := Quantity(Selection(remote, e.feature.value), events, |events|);
      Discounted(e.card.discount, CardCharge(e.card.price, money, Units(e.card.conversion, money, usage)))
  }

  ghost function CardBills(entries: seq<Entry>, remote: map<string, Meter>, money: string -> real,
                           events: seq<Event>): nat -> real {
    (i: nat) => if i < |entries| then CardBill(entries[i], remote, money, events) else 0.0
  }

  /** The rate of sp that prices an event, if any. */
  function PricingRule(sp: ServicePricing): Event -> Option<nat> {
    (ev: Event) => if ev.meterName == sp.metric then RuleFor(sp.rates, ev) else None
  }

  function PricingCharge(sp: ServicePricing, money: string -> real): (nat, real) -> real {
    (i: nat, q) =>
      if i < |sp.rates|
        then Discounted(sp.discount, RateCharge(sp.rates[i], money, Units(sp.conversion, money, q)))
        else 0.0
  }

  /** The charge the pricing's rules ask for, event by event. */
  function DirectBill(sp: ServicePricing, money: string -> real, events: seq<Event>): real {
    Streamed(PricingRule(sp), PricingCharge(sp, money), events, |events|)
  }

  /**
   The remote meter was made from the meter's own definition: it counts its events, and MeterGroupBy succeeded on its
   declared dimensions and the system dimensions, which include the project's name.
   */
  ghost predicate Provisioned(meter: MeterInfo, metric: string, remote: map<string, Meter>) {
    && meter.slug in remote && remote[meter.slug].eventType == metric
    && exists system :: GroupedBy(remote[meter.slug].groupBy, meter.dimensions, system)
  }

  ghost predicate GroupedBy(groupBy: map<string, string>, dimensions: seq<string>, system: set<string>) {
    PROJECT_NAME in system && Groupable(Names(dimensions) + system) && Groups(groupBy, Names(dimensions) + system)
  }

  /** The compiler's dimension check makes such a meter group by the dimension the rates match on. */
  lemma ChecksMeter(sp: ServicePricing, meter: MeterInfo, remote: map<string, Meter>)
    requires DimensionDeclared(sp.rates, meter) && Provisioned(meter, sp.metric, remote)
    ensures Served(sp, meter.slug, remote)
  {
    var groupBy := remote[meter.slug].groupBy;
    var system :| GroupedBy(groupBy, meter.dimensions, system);
    GroupedIsMetered(sp.rates, groupBy, meter.dimensions, system);
  }

  lemma GroupedIsMetered(rates: seq<Rate>, groupBy: map<string, string>, dimensions: seq<string>, system: set<string>)
    requires GroupedBy(groupBy, dimensions, system)
    requires Dimension(rates) == "" || Dimension(rates) == PROJECT_NAME || Dimension(rates) in dimensions
    ensures Metered(rates, Names(dimensions) + system, groupBy)
  {
    GroupsPaths(groupBy, Names(dimensions) + system);
  }

  /** The remote meter of a usage pricing counts its metric's events and groups by the dimension its rates match on. */
  ghost predicate Served(sp: ServicePricing, slug: string, remote: map<string, Meter>) {
    && slug in remote && remote[slug].eventType == sp.metric
    && exists dimensions :: Metered(sp.rates, dimensions, remote[slug].groupBy)
  }

  /** What the compiler guarantees of a usage pricing's entries, whatever their keys. */
  ghost predicate CardsOf(sp: ServicePricing, slug: string, entries: seq<Entry>) {
    |entries| == |sp.rates| && forall i :: 0 <= i < |entries| ==> CardOf(sp, slug, entries[i], i)
  }

  ghost predicate CardOf(sp: ServicePricing, slug: string, e: Entry, i: nat) {
    && i < |sp.rates| && Priced(sp.rates[i]) && e.feature.Some?
    && e.feature.value.meterSlug == slug && e.feature.value.filter == RateFilter(sp.rates, i)
    && e.card.price == UsagePrice(sp.rates[i]).value
    && e.card.conversion == sp.conversion && e.card.discount == CardDiscount(sp.discount)
  }

  lemma SameSelection(sp: ServicePricing, slug: string, feature: Feature, remote: map<string, Meter>, i: nat, ev: Event)
    requires Partition(sp.rates) && WellRead(sp.rates) && Served(sp, slug, remote) && i < |sp.rates|
    requires feature.meterSlug == slug && feature.filter == RateFilter(sp.rates, i)
    ensures Selection(remote, feature)(ev) == Goes(PricingRule(sp), i)(ev)
  {
    var dimensions :| Metered(sp.rates, dimensions, remote[slug].groupBy);
    WellReadSelectsOwn(sp.rates, dimensions, remote[slug].groupBy, i, ev);
  }

  lemma SameDiscount(discount: Option<int>, amount: real)
    ensures Discounted(CardDiscount(discount), amount) == Discounted(discount, amount)
  {
  }

  lemma SameBill(sp: ServicePricing, slug: string, entries: seq<Entry>, remote: map<string, Meter>,
                 money: string -> real, events: seq<Event>, i: nat)
    requires Partition(sp.rates) && WellRead(sp.rates) && Served(sp, slug, remote) && CardsOf(sp, slug, entries)
    requires i < |entries|
    ensures CardBill(entries[i], remote, money, events)
            == PricingCharge(sp, money)(i, Quantity(Goes(PricingRule(sp), i), events, |events|))
  {
    var e := entries[i];
    forall k | 0 <= k < |events|
      ensures Selection(remote, e.feature.value)(events[k]) == Goes(PricingRule(sp), i)(events[k])
    {
      SameSelection(sp, slug, e.feature.value, remote, i, events[k]);
    }
    QuantitySame(Selection(remote, e.feature.value), Goes(PricingRule(sp), i), events, |events|);
    var usage := Quantity(Goes(PricingRule(sp), i), events, |events|);
    PriceIsRate(sp.rates[i], money, Units(sp.conversion, money, usage));
    SameDiscount(sp.discount, RateCharge(sp.rates[i], money, Units(sp.conversion, money, usage)));
  }

  lemma NothingCostsNothing(sp: ServicePricing, money: string -> real, i: nat)
    ensures PricingCharge(sp, money)(i, 0.0) == 0.0
  {
    if i < |sp.rates| {
      assert Units(sp.conversion, money, 0.0) == 0.0;
      assert RateCharge(sp.rates[i], money, 0.0) == 0.0;
    }
  }

  /** The cards of one usage pricing, evaluated independently, bill what its rules ask for. */
  lemma PricingBillsAgree(sp: ServicePricing, slug: string, entries: seq<Entry>, remote: map<string, Meter>,
                          money: string -> real, events: seq<Event>)
    requires Partition(sp.rates) && WellRead(sp.rates) && Served(sp, slug, remote) && CardsOf(sp, slug, entries)
    ensures Total(CardBills(entries, remote, money, events), |entries|) == DirectBill(sp, money, events)
  {
    var rule, charge := PricingRule(sp), PricingCharge(sp, money);
    forall i: nat ensures charge(i, 0.0) == 0.0 {
      NothingCostsNothing(sp, money, i);
    }
    StreamedIsAggregated(rule, charge, events, |events|, |entries|);
    forall i: nat | i < |entries|
      ensures CardBills(entries, remote, money, events)(i) == Aggregated(rule, charge, events, |events|)(i)
    {
      SameBill(sp, slug, entries, remote, money, events, i);
    }
    TotalSame(CardBills(entries, remote, money, events), Aggregated(rule, charge, events, |events|), |entries|);
  }

  lemma {:induction false} BillsAppend(a: seq<Entry>, b: seq<Entry>, n: nat, remote: map<string, Meter>,
                                       money: string -> real, events: seq<Event>)
    requires n <= |b|
    ensures Total(CardBills(a + b, remote, money, events), |a| + n)
            == Total(CardBills(a, remote, money, events), |a|) + Total(CardBills(b, remote, money, events), n)
  {
    var f := CardBills(a + b, remote, money, events);
    var g, h := CardBills(a, remote, money, events), CardBills(b, remote, money, events);
    if n == 0 {
      forall i: nat | i < |a| ensures f(i) == g(i) {
        assert (a + b)[i] == a[i];
      }
      TotalSame(f, g, |a|);
    } else {
      BillsAppend(a, b, n - 1, remote, money, events);
      assert (a + b)[|a| + n - 1] == b[n - 1];
      assert f(|a| + n - 1) == h(n - 1);
    }
  }

  lemma {:induction false} FeesBillNoUsage(entries: seq<Entry>, remote: map<string, Meter>, money: string -> real,
                                           events: seq<Event>)
    requires forall i :: 0 <= i < |entries| ==> entries[i].feature.None?
    ensures Total(CardBills(entries, remote, money, events), |entries|) == 0.0
  {
    TotalZero(CardBills(entries, remote, money, events), |entries|);
  }

  /** The usage charges of the first n pricings, read directly. */
  function OfferBill(pricings: seq<ServicePricing>, money: string -> real, events: seq<Event>, n: nat): real
    requires n <= |pricings|
  {
    if n == 0 then 0.0
    else
      OfferBill(pricings, money, events, n - 1)
      + if pricings[n - 1].chargeType.Usage? then DirectBill(pricings[n - 1], money, events) else 0.0
  }

  /** A pricing whose entries bill what it asks for. */
  ghost predicate Billed(sp: ServicePricing, entries: seq<Entry>, slugs: map<string, string>,
                         remote: map<string, Meter>) {
    if sp.chargeType.Usage? then
      && Partition(sp.rates) && WellRead(sp.rates)
      && sp.metric in slugs && Served(sp, slugs[sp.metric], remote) && CardsOf(sp, slugs[sp.metric], entries)
    else forall i :: 0 <= i < |entries| ==> entries[i].feature.None?
  }

  ghost predicate BillAgrees(sp: ServicePricing, entries: seq<Entry>, remote: map<string, Meter>,
                             money: string -> real, events: seq<Event>) {
    Total(CardBills(entries, remote, money, events), |entries|)
    == if sp.chargeType.Usage? then DirectBill(sp, money, events) else 0.0
  }

  lemma OneBilled(sp: ServicePricing, entries: seq<Entry>, slugs: map<string, string>, remote: map<string, Meter>,
                  money: string -> real, events: seq<Event>)
    requires Billed(sp, entries, slugs, remote)
    ensures BillAgrees(sp, entries, remote, money, events)
  {
    if sp.chargeType.Usage? {
      PricingBillsAgree(sp, slugs[sp.metric], entries, remote, money, events);
    } else {
      FeesBillNoUsage(entries, remote, money, events);
    }
  }

  lemma {:induction false} BillsAdd(entriesOf: ServicePricing -> seq<Entry>, pricings: seq<ServicePricing>, n: nat,
                                    remote: map<string, Meter>, money: string -> real, events: seq<Event>)
    requires n <= |pricings|
    requires forall i :: 0 <= i < |pricings| ==> BillAgrees(pricings[i], entriesOf(pricings[i]), remote, money, events)
    ensures var entries := AllEntries(entriesOf, pricings, n);
      Total(CardBills(entries, remote, money, events), |entries|) == OfferBill(pricings, money, events, n)
  {
    if n > 0 {
      BillsAdd(entriesOf, pricings, n - 1, remote, money, events);
      var before, added := AllEntries(entriesOf, pricings, n - 1), entriesOf(pricings[n - 1]);
      assert BillAgrees(pricings[n - 1], added, remote, money, events);
      BillsAppend(before, added, |added|, remote, money, events);
    }
  }

  ghost function SlugsOf(meters: map<string, MeterInfo>): map<string, string> {
    map m | m in meters :: meters[m].slug
  }

  lemma {:induction false} PricedAt(rates: seq<Rate>, n: nat, i: nat)
    requires i < n <= |rates| && AllPriced(rates, n)
    ensures Priced(rates[i])
  {
    if i < n - 1 {
      PricedAt(rates, n - 1, i);
    }
  }

  lemma CompiledCards(env: Env, meters: map<string, MeterInfo>, sp: ServicePricing)
    requires UsageOk(env, meters, sp) && sp.chargeType.Usage?
    ensures CardsOf(sp, meters[sp.metric].slug, EntriesOf(env, meters, sp))
  {
    var meter := meters[sp.metric];
    var entries := UsageEntries(sp, UsageFeatures(env, meter, sp.rates));
    forall i | 0 <= i < |sp.rates| ensures CardOf(sp, meter.slug, entries[i], i) {
      PricedAt(sp.rates, |sp.rates|, i);
      CompiledCard(env, meter, sp, i);
    }
  }

  lemma CompiledCard(env: Env, meter: MeterInfo, sp: ServicePricing, i: nat)
    requires i < |sp.rates| && Priced(sp.rates[i])
    ensures CardOf(sp, meter.slug, CardFor(sp, i, UsageFeatures(env, meter, sp.rates)(sp.rates[i])), i)
  {
  }

  /**
   The compiler preserves meaning: for every accepted Offer whose pricings are well read, on provisioned meters,
   and for every sequence of events, the independently evaluated cards bill together what the rules ask for.
   */
  lemma MeaningPreserved(env: Env, meters: map<string, MeterInfo>, pricings: seq<ServicePricing>,
                         remote: map<string, Meter>, money: string -> real, events: seq<Event>, entries: seq<Entry>)
    requires Acceptable(env, meters, pricings) && entries == AllEntries(EntryRule(env, meters), pricings, |pricings|)
    requires forall i :: 0 <= i < |pricings| && pricings[i].chargeType.Usage? ==>
      && WellRead(pricings[i].rates) && pricings[i].metric in meters
      && Provisioned(meters[pricings[i].metric], pricings[i].metric, remote)
    ensures Total(CardBills(entries, remote, money, events), |entries|)
            == OfferBill(pricings, money, events, |pricings|)
  {
    var slugs := SlugsOf(meters);
    forall i | 0 <= i < |pricings|
      ensures BillAgrees(pricings[i], EntryRule(env, meters)(pricings[i]), remote, money, events)
    {
      var sp := pricings[i];
      assert FitRule(env, meters)(sp);
      if sp.chargeType.Usage? {
        CompiledCards(env, meters, sp);
        ChecksMeter(sp, meters[sp.metric], remote);
      }
      OneBilled(sp, EntriesOf(env, meters, sp), slugs, remote, money, events);
    }
    BillsAdd(EntryRule(env, meters), pricings, |pricings|, remote, money, events);
  }

  ghost function FilterOn(rates: seq<Rate>, groupBy: map<string, string>, i: nat): Event -> bool {
    ev => PathsOk(groupBy) && i < |rates| && Selects(groupBy, RateFilter(rates, i), ev)
  }

  ghost function CardUsage(rates: seq<Rate>, groupBy: map<string, string>, events: seq<Event>, n: nat): nat -> real
    requires n <= |events|
  {
    (i: nat) => Quantity(FilterOn(rates, groupBy, i), events, n)
  }

  function Everything(): Event -> bool {
    ev => true
  }

  /** With a catch-all, the cards' usage adds up to all usage: nothing is lost and nothing counted twice. */
  lemma {:induction false} UsageConserved(rates: seq<Rate>, groupBy: map<string, string>, events: seq<Event>, n: nat)
    requires Partition(rates) && PathsOk(groupBy) && CatchAll(rates, |rates|).Some? && n <= |events|
    ensures Total(CardUsage(rates, groupBy, events, n), |rates|) == Quantity(Everything(), events, n)
  {
    if n == 0 {
      NoUsageYet(rates, groupBy, events);
    } else {
      UsageConserved(rates, groupBy, events, n - 1);
      var before, now := Total(CardUsage(rates, groupBy, events, n - 1), |rates|),
                         Total(CardUsage(rates, groupBy, events, n), |rates|);
      assert now == before + events[n - 1].value by {
        UsageGrows(rates, groupBy, events, n);
      }
      EverythingCounts(events, n);
    }
  }

  lemma NoUsageYet(rates: seq<Rate>, groupBy: map<string, string>, events: seq<Event>)
    ensures Total(CardUsage(rates, groupBy, events, 0), |rates|) == 0.0
  {
    var g := CardUsage(rates, groupBy, events, 0);
    forall i: nat | i < |rates| ensures g(i) == 0.0 {
      assert g(i) == Quantity(FilterOn(rates, groupBy, i), events, 0);
    }
    TotalZero(g, |rates|);
  }

  lemma EverythingCounts(events: seq<Event>, n: nat)
    requires 0 < n <= |events|
    ensures Quantity(Everything(), events, n) == Quantity(Everything(), events, n - 1) + events[n - 1].value
  {
    assert Everything()(events[n - 1]);
  }

  lemma UsageGrows(rates: seq<Rate>, groupBy: map<string, string>, events: seq<Event>, n: nat)
    requires Partition(rates) && PathsOk(groupBy) && CatchAll(rates, |rates|).Some? && 0 < n <= |events|
    ensures Total(CardUsage(rates, groupBy, events, n), |rates|)
            == Total(CardUsage(rates, groupBy, events, n - 1), |rates|) + events[n - 1].value
  {
    var k := CardThatCounts(rates, groupBy, events[n - 1]);
    UsageTurn(rates, groupBy, events, n, k);
  }

  lemma UsageTurn(rates: seq<Rate>, groupBy: map<string, string>, events: seq<Event>, n: nat, k: nat)
    requires Partition(rates) && PathsOk(groupBy) && 0 < n <= |events| && k < |rates|
    requires Selects(groupBy, RateFilter(rates, k), events[n - 1])
    ensures Total(CardUsage(rates, groupBy, events, n), |rates|)
            == Total(CardUsage(rates, groupBy, events, n - 1), |rates|) + events[n - 1].value
  {
    var f, g := CardUsage(rates, groupBy, events, n - 1), CardUsage(rates, groupBy, events, n);
    forall i: nat | i < |rates| ensures g(i) == f(i) + if i == k then events[n - 1].value else 0.0 {
      UsageStep(rates, groupBy, events, n, k, i);
    }
    TotalUpdate(f, g, |rates|, k);
  }

  lemma UsageStep(rates: seq<Rate>, groupBy: map<string, string>, events: seq<Event>, n: nat, k: nat, i: nat)
    requires Partition(rates) && PathsOk(groupBy) && 0 < n <= |events| && k < |rates| && i < |rates|
    requires Selects(groupBy, RateFilter(rates, k), events[n - 1])
    ensures CardUsage(rates, groupBy, events, n)(i)
            == CardUsage(rates, groupBy, events, n - 1)(i) + if i == k then events[n - 1].value else 0.0
  {
    if i < k {
      CardsExclusive(rates, groupBy, events[n - 1], i, k);
    } else if k < i {
      CardsExclusive(rates, groupBy, events[n - 1], k, i);
    }
    var select := FilterOn(rates, groupBy, i);
    assert select(events[n - 1]) <==> i == k;
    assert Quantity(select, events, n)
        == Quantity(select, events, n - 1) + if select(events[n - 1]) then events[n - 1].value else 0.0;
  }
}
