/**
 The offer compiler: an Offer's service pricings become rate cards and usage features.
 Descriptions and card labels are not part of the model.
 */
module OfferMapping {
  import opened Common
  import opened Keys
  import Decimals
  import GroupBy

  datatype Match = Match(dimension: string, value: string)

  /** upTo is "" for an open band. */
  datatype Band = Band(upTo: string, rate: string)

  datatype Rate = Rate(on: Option<Match>, flat: string, tiered: seq<Band>)

  datatype ChargeType = Usage | OneTime | Recurring | Unsupported

  datatype ServicePricing = ServicePricing(
    name: string, displayName: string, chargeType: ChargeType, discount: Option<int>, pricingUnit: string,
    metric: string, rates: seq<Rate>, conversion: Option<string>,
    amount: string, interval: string, quantity: int)

  datatype MeterInfo = MeterInfo(name: string, slug: string, dimensions: seq<string>)

  datatype Filter = Eq(key: string, value: string) | Nin(key: string, values: seq<string>)

  datatype Feature = Feature(key: string, meterSlug: string, filter: Option<Filter>)

  datatype CardTier = CardTier(upTo: Option<string>, unitPrice: string)

  datatype CardPrice = UnitPrice(amount: string) | GraduatedPrice(tiers: seq<CardTier>) | FlatPrice(amount: string)

  datatype RateCard = RateCard(key: string, name: string, price: CardPrice, monthly: bool,
                               conversion: Option<string>, discount: Option<int>, featureId: Option<string>)

  /** Library functions: lowercasing, SHA-256, the JSON encoding of a feature, and the positive decimals. */
  datatype Env = Env(lower: Lowering, sha: string -> Digest, encode: (string, Option<Filter>) -> string,
                     isPositive: string -> bool, setString: Decimals.SetString)

  const PROJECT_NAME := "project_name"

  // ---- What a usage pricing means for each of its rates ----

  function MatchedValues(rates: seq<Rate>): (vs: seq<string>)
    ensures forall v :: v in vs <==> exists i :: 0 <= i < |rates| && rates[i].on.Some? && rates[i].on.value.value == v
  {
    if rates == [] then []
    else
      var n := |rates| - 1;
      var before := MatchedValues(rates[..n]);
      assert forall i :: 0 <= i < n ==> rates[..n][i] == rates[i];
      before + if rates[n].on.Some? then [rates[n].on.value.value] else []
  }

  /** The dimension the validation ends with: that of the last matching rate, "" when none matches. */
  function Dimension(rates: seq<Rate>): string {
    if rates == [] then ""
    else if rates[|rates| - 1].on.Some? then rates[|rates| - 1].on.value.dimension
    else Dimension(rates[..|rates| - 1])
  }

  /** Matches share one dimension, except that leading matches on "" go unnoticed. */
  ghost predicate OneDimension(rates: seq<Rate>) {
    forall i, j :: 0 <= i < j < |rates| && rates[i].on.Some? && rates[j].on.Some? ==>
      rates[i].on.value.dimension == "" || rates[i].on.value.dimension == rates[j].on.value.dimension
  }

  ghost predicate DistinctValues(rates: seq<Rate>) {
    forall i, j :: 0 <= i < j < |rates| && rates[i].on.Some? && rates[j].on.Some? ==>
      rates[i].on.value.value != rates[j].on.value.value
  }

  ghost predicate OneCatchAll(rates: seq<Rate>) {
    forall i, j :: 0 <= i < j < |rates| ==> rates[i].on.Some? || rates[j].on.Some?
  }

  ghost predicate Partition(rates: seq<Rate>) {
    OneCatchAll(rates) && OneDimension(rates) && DistinctValues(rates)
  }

  predicate LessOrEqual(a: string, b: string) {
    a == "" || (b != "" && (a[0] < b[0] || (a[0] == b[0] && LessOrEqual(a[1..], b[1..]))))
  }

  function Insert(v: string, vs: seq<string>): (r: seq<string>)
    ensures forall w :: w in r <==> w == v || w in vs
  {
    if vs == [] then [v]
    else if LessOrEqual(v, vs[0]) then [v] + vs
    else [vs[0]] + Insert(v, vs[1..])
  }

  /** slices.Sort. */
  function Sorted(vs: seq<string>): (r: seq<string>)
    ensures forall w :: w in r <==> w in vs
  {
    if vs == [] then [] else Insert(vs[0], Sorted(vs[1..]))
  }

  /** The usage rate i covers: its value, or for the catch-all everything but the matched values. */
  function RateFilter(rates: seq<Rate>, i: nat): Option<Filter>
    requires i < |rates|
  {
    FilterOf(rates[i], GroupBy.GroupByKey(Dimension(rates)), MatchedValues(rates))
  }

  function FilterOf(rate: Rate, key: string, matched: seq<string>): Option<Filter> {
    if rate.on.Some? then Some(Eq(key, rate.on.value.value))
    else if matched != [] then Some(Nin(key, Sorted(matched)))
    else None
  }

  /** usagePrice; None when the rate sets both prices, neither, or leaves a middle band open. */
  function UsagePrice(rate: Rate): (p: Option<CardPrice>)
    ensures p.Some? <==>
      || (rate.flat != "" && rate.tiered == [])
      || (rate.flat == "" && rate.tiered != [] && forall i :: 0 <= i < |rate.tiered| - 1 ==> rate.tiered[i].upTo != "")
    ensures p.Some? && rate.flat != "" ==> p.value == UnitPrice(rate.flat)
    ensures p.Some? && rate.flat == "" ==>
      && p.value.GraduatedPrice? && |p.value.tiers| == |rate.tiered|
      && forall i :: 0 <= i < |rate.tiered| ==> p.value.tiers[i] == TierOf(rate.tiered[i])
  {
    if rate.flat != "" && rate.tiered != [] then None
    else if rate.flat != "" then Some(UnitPrice(rate.flat))
    else if rate.tiered == [] then None
    else if exists i :: 0 <= i < |rate.tiered| - 1 && rate.tiered[i].upTo == "" then None
    else Some(GraduatedPrice(seq(|rate.tiered|, i requires 0 <= i < |rate.tiered| => TierOf(rate.tiered[i]))))
  }

  predicate Priced(rate: Rate) {
    UsagePrice(rate).Some?
  }

  /** The first n rates can be priced. */
  predicate AllPriced(rates: seq<Rate>, n: nat)
    requires n <= |rates|
  {
    n == 0 || (AllPriced(rates, n - 1) && Priced(rates[n - 1]))
  }

  function TierOf(band: Band): CardTier {
    CardTier(if band.upTo == "" then None else Some(band.upTo), band.rate)
  }

  predicate DiscountOk(discount: Option<int>) {
    discount.Some? ==> 0 <= discount.value <= 100
  }

  /** resolveDiscount: no discount and zero percent are the same card. */
  function CardDiscount(discount: Option<int>): Option<int> {
    if discount.Some? && discount.value != 0 then discount else None
  }

  function Readable(slug: string, filter: Option<Filter>, lower: Lowering): string {
    match filter
    case None => slug + "_" + "all"
    case Some(Eq(key, value)) => slug + "_" + Sanitized(key, lower) + "_" + Sanitized(value, lower)
    case Some(Nin(key, _)) => slug + "_" + Sanitized(key, lower) + "_" + "other"
  }

  lemma FallbacksAreKeys()
    ensures ValidKey("feature") && ValidKey("flat_fee")
  {
  }

  /** usageFeature: the key is derived from the whole definition. */
  function UsageFeature(env: Env, slug: string, filter: Option<Filter>): Feature {
    FallbacksAreKeys();
    Feature(BoundedKey(Readable(slug, filter, env.lower), "feature", env.encode(slug, filter), env.sha), slug, filter)
  }

  /** The feature behind each rate, given the filter key and the matched values of all rates. */
  function RateFeatures(env: Env, slug: string, key: string, matched: seq<string>): Rate -> Feature {
    rate => UsageFeature(env, slug, FilterOf(rate, key, matched))
  }

  function DisplayName(sp: ServicePricing): string {
    if sp.displayName == "" then sp.name else sp.displayName
  }

  function FeeQuantity(sp: ServicePricing): int {
    if sp.quantity > 0 then sp.quantity else 1
  }

  function FeeName(sp: ServicePricing): string {
    var quantity := Decimals.NatText(FeeQuantity(sp));
    DisplayName(sp) +
    if sp.pricingUnit != "" then ": " + quantity + " " + sp.pricingUnit + " \U{D7} $" + sp.amount
    else if FeeQuantity(sp) > 1 then " \U{D7} " + quantity
    else ""
  }

  // ---- The cards an Offer is to have ----

  /** The rate of a usage pricing a card was made for. */
  datatype Rule = Rule(pricing: ServicePricing, index: nat)

  /** A card, with the feature and the rate behind it when it prices usage. */
  datatype Entry = Entry(pricing: string, card: RateCard, feature: Option<Feature>, rule: Option<Rule>)

  /** The card that prices the usage of feature with rate i of sp. */
  function CardFor(sp: ServicePricing, i: nat, feature: Feature): Entry
    requires i < |sp.rates|
  {
    var price := UsagePrice(sp.rates[i]);
    Entry(sp.name,
          RateCard(feature.key, DisplayName(sp), if price.Some? then price.value else UnitPrice(""), true,
                   sp.conversion,
                   CardDiscount(sp.discount), None),
          Some(feature), Some(Rule(sp, i)))
  }

  function UsageFeatures(env: Env, meter: MeterInfo, rates: seq<Rate>): Rate -> Feature {
    RateFeatures(env, meter.slug, GroupBy.GroupByKey(Dimension(rates)), MatchedValues(rates))
  }

  function UsageEntries(sp: ServicePricing, featureOf: Rate -> Feature): seq<Entry> {
    seq(|sp.rates|, i requires 0 <= i < |sp.rates| => CardFor(sp, i, featureOf(sp.rates[i])))
  }

  function FeeKey(env: Env, sp: ServicePricing): string {
    FallbacksAreKeys();
    BoundedKey(Sanitized(sp.name, env.lower), "flat_fee", sp.name, env.sha)
  }

  function FeeAmount(setString: Decimals.SetString, sp: ServicePricing): string {
    var amount := Decimals.MultiplyAmount(setString, sp.amount, FeeQuantity(sp));
    if amount.Some? then amount.value else ""
  }

  /** The card of a one-time or recurring fee: its whole amount, named so that the unit price shows. */
  function FeeEntry(sp: ServicePricing, key: string, amount: string): Entry {
    Entry(sp.name,
          RateCard(key, FeeName(sp), FlatPrice(amount), sp.chargeType.Recurring?, None,
                   CardDiscount(sp.discount), None),
          None, None)
  }

  function EntriesOf(env: Env, meters: map<string, MeterInfo>, sp: ServicePricing): seq<Entry> {
    match sp.chargeType
    case Usage =>
      if sp.metric in meters then UsageEntries(sp, UsageFeatures(env, meters[sp.metric], sp.rates)) else []
    case OneTime => [FeeEntry(sp, FeeKey(env, sp), FeeAmount(env.setString, sp))]
    case Recurring => [FeeEntry(sp, FeeKey(env, sp), FeeAmount(env.setString, sp))]
    case Unsupported => []
  }

  ghost function FitRule(env: Env, meters: map<string, MeterInfo>): ServicePricing -> bool {
    sp => PricingOk(env, meters, sp)
  }

  function EntryRule(env: Env, meters: map<string, MeterInfo>): ServicePricing -> seq<Entry> {
    sp => EntriesOf(env, meters, sp)
  }

  /** The entries of the first n pricings, in order. */
  function AllEntries(entriesOf: ServicePricing -> seq<Entry>, pricings: seq<ServicePricing>, n: nat): seq<Entry>
    requires n <= |pricings|
  {
    if n == 0 then [] else AllEntries(entriesOf, pricings, n - 1) + entriesOf(pricings[n - 1])
  }

  ghost predicate UsageChecks(env: Env, meters: map<string, MeterInfo>, sp: ServicePricing) {
    && sp.metric in meters
    && sp.rates != []
    && (sp.conversion.Some? ==> env.isPositive(sp.conversion.value))
    && Partition(sp.rates)
    && DimensionDeclared(sp.rates, meters[sp.metric])
    && DiscountOk(sp.discount)
  }

  /** The rates match on nothing, on the project's name, or on a dimension the meter declares. */
  predicate DimensionDeclared(rates: seq<Rate>, meter: MeterInfo) {
    Dimension(rates) == "" || Dimension(rates) == PROJECT_NAME || Dimension(rates) in meter.dimensions
  }

  ghost predicate UsageOk(env: Env, meters: map<string, MeterInfo>, sp: ServicePricing) {
    UsageChecks(env, meters, sp) && AllPriced(sp.rates, |sp.rates|)
  }

  predicate FeeOk(setString: Decimals.SetString, sp: ServicePricing) {
    && sp.amount != ""
    && DiscountOk(sp.discount)
    && Decimals.ReadAmount(setString, sp.amount).Some?
    && (sp.chargeType.Recurring? ==> sp.interval == "" || sp.interval == "Monthly")
  }

  ghost predicate PricingOk(env: Env, meters: map<string, MeterInfo>, sp: ServicePricing) {
    match sp.chargeType
    case Usage => UsageOk(env, meters, sp)
    case OneTime => FeeOk(env.setString, sp)
    case Recurring => FeeOk(env.setString, sp)
    case Unsupported => false
  }

  ghost predicate DistinctMetrics(pricings: seq<ServicePricing>) {
    forall i, j :: 0 <= i < j < |pricings| && pricings[i].chargeType.Usage? && pricings[j].chargeType.Usage? ==>
      pricings[i].metric != pricings[j].metric
  }

  ghost predicate DistinctKeys(entries: seq<Entry>) {
    forall i, j :: 0 <= i < j < |entries| ==> entries[i].card.key != entries[j].card.key
  }

  /** Each pricing fits on its own, one pricing per metric, no key twice. */
  ghost predicate Representable(fits: ServicePricing -> bool, entriesOf: ServicePricing -> seq<Entry>,
                                pricings: seq<ServicePricing>) {
    && (forall i :: 0 <= i < |pricings| ==> fits(pricings[i]))
    && DistinctMetrics(pricings)
    && DistinctKeys(AllEntries(entriesOf, pricings, |pricings|))
  }

  /** The Offers the compiler is to accept. */
  ghost predicate Acceptable(env: Env, meters: map<string, MeterInfo>, pricings: seq<ServicePricing>) {
    pricings != [] && Representable(FitRule(env, meters), EntryRule(env, meters), pricings)
  }
}
