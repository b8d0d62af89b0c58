/**
 mappingBuilder: the passes over service pricings that accumulate rate cards and features,
 proved to accept exactly the representable Offers and to produce exactly their cards.
 */
module OfferBuilder {
  import opened Common
  import opened Keys
  import opened OfferMapping
  import Decimals
  import GroupBy

  datatype OfferError = MeterNotFound(metric: string) | InvalidOffer

  datatype Mapping = Mapping(cards: seq<RateCard>, features: seq<Feature>, meterSlugs: seq<string>,
                             cardFeatures: map<string, string>)

  ghost function CardsIn(entries: seq<Entry>): seq<RateCard> {
    seq(|entries|, i requires 0 <= i < |entries| => entries[i].card)
  }

  /** The features of the usage entries, in order. */
  ghost function FeaturesIn(entries: seq<Entry>): seq<Feature> {
    if entries == [] then []
    else
      var last := entries[|entries| - 1];
      FeaturesIn(entries[..|entries| - 1]) + if last.feature.Some? then [last.feature.value] else []
  }

  ghost function KeysIn(entries: seq<Entry>): set<string> {
    set i | 0 <= i < |entries| :: entries[i].card.key
  }

  ghost function UsageKeysIn(entries: seq<Entry>): set<string> {
    set i | 0 <= i < |entries| && entries[i].feature.Some? :: entries[i].card.key
  }

  ghost function SlugsIn(features: seq<Feature>): set<string> {
    set i | 0 <= i < |features| :: features[i].meterSlug
  }

  /** A mapping is the faithful image of a list of entries. */
  ghost predicate MappingOf(m: Mapping, entries: seq<Entry>) {
    && m.cards == CardsIn(entries)
    && m.features == FeaturesIn(entries)
    && NoRepeats(m.meterSlugs) && (set s | s in m.meterSlugs) == SlugsIn(m.features)
    && m.cardFeatures.Keys == UsageKeysIn(entries)
    && (forall k :: k in m.cardFeatures ==> m.cardFeatures[k] == k)
  }

  lemma KeysSnoc(entries: seq<Entry>, e: Entry)
    ensures KeysIn(entries + [e]) == KeysIn(entries) + {e.card.key}
  {
    var longer, n := entries + [e], |entries|;
    assert longer[n] == e;
    forall k ensures k in KeysIn(longer) <==> k in KeysIn(entries) || k == e.card.key {
      if k in KeysIn(entries) {
        var i :| 0 <= i < n && entries[i].card.key == k;
        assert longer[i].card.key == k;
      }
    }
  }

  lemma UsageKeysSnoc(entries: seq<Entry>, e: Entry)
    ensures UsageKeysIn(entries + [e]) == UsageKeysIn(entries) + if e.feature.Some? then {e.card.key} else {}
  {
    var longer, n := entries + [e], |entries|;
    assert longer[n] == e;
    forall k ensures k in UsageKeysIn(longer) <==> k in UsageKeysIn(entries) || (e.feature.Some? && k == e.card.key) {
      if k in UsageKeysIn(entries) {
        var i :| 0 <= i < n && entries[i].feature.Some? && entries[i].card.key == k;
        assert longer[i].feature.Some? && longer[i].card.key == k;
      }
    }
  }

  /** The last matching rate decides the dimension. */
  lemma {:induction false} LastMatch(rates: seq<Rate>) returns (last: int)
    ensures -1 <= last < |rates|
    ensures forall k :: last < k < |rates| ==> rates[k].on.None?
    ensures if last < 0 then Dimension(rates) == ""
            else rates[last].on.Some? && Dimension(rates) == rates[last].on.value.dimension
  {
    last := |rates| - 1;
    if rates != [] && rates[last].on.None? {
      last := LastMatch(rates[..last]);
    }
  }

  lemma OneDimensionSnoc(rates: seq<Rate>, r: Rate)
    ensures OneDimension(rates + [r]) <==>
      OneDimension(rates) && (r.on.None? || Dimension(rates) == "" || Dimension(rates) == r.on.value.dimension)
  {
    var longer, n := rates + [r], |rates|;
    assert longer[n] == r && forall i :: 0 <= i < n ==> longer[i] == rates[i];
    var last := LastMatch(rates);
    if OneDimension(longer) {
      assert OneDimension(rates) by {
        forall i, j | 0 <= i < j < n && rates[i].on.Some? && rates[j].on.Some?
          ensures rates[i].on.value.dimension == "" || rates[i].on.value.dimension == rates[j].on.value.dimension
        {
          assert longer[i].on.Some? && longer[j].on.Some?;
        }
      }
      assert last >= 0 ==> longer[last].on.Some?;
    }
  }

  lemma DistinctValuesSnoc(rates: seq<Rate>, r: Rate)
    ensures DistinctValues(rates + [r]) <==>
      DistinctValues(rates) && (r.on.None? || r.on.value.value !in MatchedValues(rates))
  {
    var longer, n := rates + [r], |rates|;
    assert longer[n] == r && forall i :: 0 <= i < n ==> longer[i] == rates[i];
    if DistinctValues(longer) {
      assert DistinctValues(rates) by {
        forall i, j | 0 <= i < j < n && rates[i].on.Some? && rates[j].on.Some?
          ensures rates[i].on.value.value != rates[j].on.value.value
        {
          assert longer[i].on.Some? && longer[j].on.Some?;
        }
      }
    }
  }

  lemma OneCatchAllSnoc(rates: seq<Rate>, r: Rate)
    ensures OneCatchAll(rates + [r]) <==>
      OneCatchAll(rates) && (r.on.Some? || forall i :: 0 <= i < |rates| ==> rates[i].on.Some?)
  {
    var longer, n := rates + [r], |rates|;
    assert longer[n] == r && forall i :: 0 <= i < n ==> longer[i] == rates[i];
    if OneCatchAll(longer) {
      assert forall i, j :: 0 <= i < j < n ==> longer[i].on.Some? || longer[j].on.Some?;
    }
  }

  lemma {:induction false} PartitionPrefix(rates: seq<Rate>, n: nat)
    requires n <= |rates| && Partition(rates)
    ensures Partition(rates[..n])
    decreases |rates| - n
  {
    if n < |rates| {
      PartitionPrefix(rates, n + 1);
      assert rates[..n + 1] == rates[..n] + [rates[n]];
      OneDimensionSnoc(rates[..n], rates[n]);
      DistinctValuesSnoc(rates[..n], rates[n]);
      OneCatchAllSnoc(rates[..n], rates[n]);
    } else {
      assert rates[..n] == rates;
    }
  }

  /** What the first loop of addUsage knows after the first i rates. */
  ghost predicate Validated(rates: seq<Rate>, i: nat, dimension: string, matched: seq<string>, catchAll: int) {
    && i <= |rates| && Partition(rates[..i])
    && dimension == Dimension(rates[..i]) && matched == MatchedValues(rates[..i])
    && -1 <= catchAll < i && (catchAll < 0 <==> forall k :: 0 <= k < i ==> rates[k].on.Some?)
  }

  /** One more rate. */
  lemma ValidatedStep(rates: seq<Rate>, i: nat, dimension: string, matched: seq<string>, catchAll: int)
    requires Validated(rates, i, dimension, matched, catchAll) && i < |rates|
    ensures rates[i].on.None? ==>
      if catchAll >= 0 then !Partition(rates[..i + 1]) else Validated(rates, i + 1, dimension, matched, i)
    ensures rates[i].on.Some? ==>
      var m := rates[i].on.value;
      if (dimension != "" && dimension != m.dimension) || m.value in matched then !Partition(rates[..i + 1])
      else Validated(rates, i + 1, m.dimension, matched + [m.value], catchAll)
  {
    var done, rate := rates[..i], rates[i];
    var next := done + [rate];
    assert next == rates[..i + 1] && next[..i] == done && next[i] == rate;
    OneDimensionSnoc(done, rate);
    DistinctValuesSnoc(done, rate);
    OneCatchAllSnoc(done, rate);
    assert forall k :: 0 <= k < i ==> done[k] == rates[k];
  }

  /** addUsage's first loop: at most one catch-all, one dimension, no value twice. */
  method ValidateRates(rates: seq<Rate>) returns (ok: bool, dimension: string, matched: seq<string>)
    ensures ok <==> Partition(rates)
    ensures ok ==> dimension == Dimension(rates) && matched == MatchedValues(rates)
  {
    dimension, matched := "", [];
    var catchAll := -1;
    for i := 0 to |rates|
      invariant Validated(rates, i, dimension, matched, catchAll)
    {
      ValidatedStep(rates, i, dimension, matched, catchAll);
      if Partition(rates) {
        PartitionPrefix(rates, i + 1);
      }
      var rate := rates[i];
      if rate.on.None? {
        if catchAll >= 0 {
          return false, dimension, matched;
        }
        catchAll := i;
      } else {
        if dimension == "" {
          dimension := rate.on.value.dimension;
        } else if dimension != rate.on.value.dimension {
          return false, dimension, matched;
        }
        if rate.on.value.value in matched {
          return false, dimension, matched;
        }
        matched := matched + [rate.on.value.value];
      }
    }
    assert rates[..|rates|] == rates;
    ok := true;
  }

  lemma SlugsSnoc(features: seq<Feature>, f: Feature)
    ensures SlugsIn(features + [f]) == SlugsIn(features) + {f.meterSlug}
  {
    var longer, n := features + [f], |features|;
    assert longer[n] == f;
    forall s ensures s in SlugsIn(longer) <==> s in SlugsIn(features) || s == f.meterSlug {
      if s in SlugsIn(features) {
        var i :| 0 <= i < n && features[i].meterSlug == s;
        assert longer[i].meterSlug == s;
      }
    }
  }

  /** The builder's accumulated fields, but for the metrics already priced. */
  datatype State = State(mapping: Mapping, rateCardKeys: map<string, string>, featureByKey: map<string, nat>)

  function WithSlug(slugs: seq<string>, slug: string): seq<string> {
    if slug in slugs then slugs else slugs + [slug]
  }

  function WithFeature(st: State, f: Feature): State {
    if f.key in st.featureByKey then st
    else st.(featureByKey := st.featureByKey[f.key := |st.mapping.features|],
             mapping := st.mapping.(features := st.mapping.features + [f],
                                    meterSlugs := WithSlug(st.mapping.meterSlugs, f.meterSlug)))
  }

  function WithCard(st: State, card: RateCard, pricing: string): State {
    st.(rateCardKeys := st.rateCardKeys[card.key := pricing],
        mapping := st.mapping.(cards := st.mapping.cards + [card]))
  }

  function WithLink(st: State, key: string): State {
    st.(mapping := st.mapping.(cardFeatures := st.mapping.cardFeatures[key := key]))
  }

  /** One entry added. */
  function Step(st: State, e: Entry): State {
    WithCard(if e.feature.Some? then WithLink(WithFeature(st, e.feature.value), e.card.key) else st, e.card, e.pricing)
  }

  const EMPTY := State(Mapping([], [], [], map[]), map[], map[])

  /** The entries added so far, oldest first. */
  datatype Log = Empty | Snoc(init: Log, last: Entry)

  function Items(log: Log): seq<Entry> {
    match log
    case Empty => []
    case Snoc(init, last) => Items(init) + [last]
  }

  /** log followed by the first n of entries. */
  function Extend(log: Log, entries: seq<Entry>, n: nat): Log
    requires n <= |entries|
  {
    if n == 0 then log else Snoc(Extend(log, entries, n - 1), entries[n - 1])
  }

  lemma {:induction false} ItemsExtend(log: Log, entries: seq<Entry>, n: nat)
    requires n <= |entries|
    ensures Items(Extend(log, entries, n)) == Items(log) + entries[..n]
  {
    if n > 0 {
      ItemsExtend(log, entries, n - 1);
      assert entries[..n] == entries[..n - 1] + [entries[n - 1]];
    }
  }

  function Fold(log: Log): State {
    match log
    case Empty => EMPTY
    case Snoc(init, last) => Step(Fold(init), last)
  }

  /** No entry claims a key an earlier one holds. */
  predicate NoClash(log: Log) {
    match log
    case Empty => true
    case Snoc(init, last) => NoClash(init) && last.card.key !in Fold(init).rateCardKeys
  }

  lemma {:induction false} ClashRemains(log: Log, entries: seq<Entry>, i: nat, n: nat)
    requires i <= n <= |entries|
    ensures NoClash(Extend(log, entries, n)) ==> NoClash(Extend(log, entries, i))
  {
    if i < n {
      ClashRemains(log, entries, i, n - 1);
    }
  }

  class MappingBuilder {
    const env: Env
    const meters: map<string, MeterInfo>

    var rateCards: seq<RateCard>
    var cardFeatures: map<string, string>
    var rateCardKeys: map<string, string>
    var features: seq<Feature>
    var featureByKey: map<string, nat>
    var meterSlugs: seq<string>
    var pricedMetrics: map<string, string>

    /** What has been added so far. */
    ghost var log: Log

    function Built(): State
      reads this
    {
      State(Mapping(rateCards, features, meterSlugs, cardFeatures), rateCardKeys, featureByKey)
    }

    ghost predicate Valid()
      reads this
    {
      Built() == Fold(log) && NoClash(log)
    }

    constructor (env: Env, meters: map<string, MeterInfo>)
      ensures Valid() && log == Empty && pricedMetrics == map[] && this.env == env && this.meters == meters
    {
      this.env, this.meters := env, meters;
      rateCards, cardFeatures, rateCardKeys := [], map[], map[];
      features, featureByKey, meterSlugs, pricedMetrics := [], map[], [], map[];
      log := Empty;
    }

    /** claimRateCardKey: a key may be used once. */
    method ClaimRateCardKey(key: string, pricing: string) returns (ok: bool)
      modifies this`rateCardKeys
      ensures ok <==> key !in old(rateCardKeys)
      ensures rateCardKeys == if ok then old(rateCardKeys)[key := pricing] else old(rateCardKeys)
    {
      if key in rateCardKeys {
        return false;
      }
      rateCardKeys := rateCardKeys[key := pricing];
      ok := true;
    }

    /** addFeature: a feature seen before is not added again. */
    method AddFeature(f: Feature)
      modifies this`features, this`featureByKey, this`meterSlugs
      ensures Built() == WithFeature(old(Built()), f)
    {
      if f.key in featureByKey {
        return;
      }
      featureByKey := featureByKey[f.key := |features|];
      features := features + [f];
      if f.meterSlug !in meterSlugs {
        meterSlugs := meterSlugs + [f.meterSlug];
      }
    }

    /** One turn of addUsage's second loop: the feature, the price, the key, the card. */
    method AddRate(sp: ServicePricing, i: nat, feature: Feature) returns (ok: bool)
      requires Valid() && i < |sp.rates|
      modifies this`features, this`featureByKey, this`meterSlugs, this`rateCardKeys, this`cardFeatures
      modifies this`rateCards, this`log
      ensures ok <==> Priced(sp.rates[i]) && feature.key !in old(rateCardKeys)
      ensures ok ==> Valid() && log == Snoc(old(log), CardFor(sp, i, feature))
    {
      ghost var e := CardFor(sp, i, feature);
      AddFeature(feature);
      var price := UsagePrice(sp.rates[i]);
      if price.None? {
        return false;
      }
      ok := ClaimRateCardKey(feature.key, sp.name);
      if !ok {
        return;
      }
      var card := RateCard(feature.key, DisplayName(sp), price.value, true, sp.conversion,
                           CardDiscount(sp.discount), None);
      cardFeatures := cardFeatures[feature.key := feature.key];
      rateCards := rateCards + [card];
      log := Snoc(log, e);
    }

    /** addUsage's second loop: one card per rate, each bound to the feature of its own filter. */
    method AddRates(sp: ServicePricing, featureOf: Rate -> Feature) returns (ok: bool)
      requires Valid()
      modifies this
      ensures pricedMetrics == old(pricedMetrics)
      ensures ok ==> Valid() && log == RatesAdded(old(log), sp, featureOf, |sp.rates|)
      ensures ok <==> AllPriced(sp.rates, |sp.rates|) && NoClash(RatesAdded(old(log), sp, featureOf, |sp.rates|))
    {
      ghost var start := log;
      for i := 0 to |sp.rates|
        invariant Valid() && log == RatesAdded(start, sp, featureOf, i)
        invariant AllPriced(sp.rates, i)
        invariant pricedMetrics == old(pricedMetrics)
      {
        var feature := featureOf(sp.rates[i]);
        CannotAdd(sp, featureOf, start, i);
        ok := AddRate(sp, i, feature);
        if !ok {
          return;
        }
      }
      ok := true;
    }

    /** addUsage's checks before any card is made, in order. */
    method CheckUsage(sp: ServicePricing) returns (error: Option<OfferError>, dimension: string, matched: seq<string>)
      modifies this`pricedMetrics
      ensures error.None? <==> UsageChecks(env, meters, sp) && sp.metric !in old(pricedMetrics)
      ensures error.None? ==> dimension == Dimension(sp.rates) && matched == MatchedValues(sp.rates)
      ensures error.None? ==> pricedMetrics == old(pricedMetrics)[sp.metric := sp.name]
      ensures error.None? || error == Some(InvalidOffer) || error == Some(MeterNotFound(sp.metric))
      ensures error == Some(MeterNotFound(sp.metric)) <==> sp.metric !in meters
    {
      dimension, matched := "", [];
      if sp.metric !in meters {
        error := Some(MeterNotFound(sp.metric));
        return;
      }
      error := Some(InvalidOffer);
      if sp.metric in pricedMetrics {
        return;
      }
      pricedMetrics := pricedMetrics[sp.metric := sp.name];
      if |sp.rates| == 0 {
        return;
      }
      if sp.conversion.Some? && !env.isPositive(sp.conversion.value) {
        return;
      }
      var ok;
      ok, dimension, matched := ValidateRates(sp.rates);
      if !ok {
        return;
      }
      if dimension != "" && dimension != PROJECT_NAME && dimension !in meters[sp.metric].dimensions {
        return;
      }
      if !DiscountOk(sp.discount) {
        return;
      }
      error := None;
    }

    /** addUsage. */
    method AddUsage(sp: ServicePricing) returns (error: Option<OfferError>)
      requires Valid()
      modifies this
      ensures error.None? <==>
        && UsageChecks(env, meters, sp) && sp.metric !in old(pricedMetrics) && AllPriced(sp.rates, |sp.rates|)
        && NoClash(RatesAdded(old(log), sp, UsageFeatures(env, meters[sp.metric], sp.rates), |sp.rates|))
      ensures error.None? ==>
        && Valid() && pricedMetrics == old(pricedMetrics)[sp.metric := sp.name]
        && log == RatesAdded(old(log), sp, UsageFeatures(env, meters[sp.metric], sp.rates), |sp.rates|)
      ensures error.None? || error == Some(InvalidOffer) || error == Some(MeterNotFound(sp.metric))
      ensures error == Some(MeterNotFound(sp.metric)) <==> sp.metric !in meters
    {
      var dimension, matched;
      error, dimension, matched := CheckUsage(sp);
      if error.Some? {
        return;
      }
      var ok := AddRates(sp, RateFeatures(env, meters[sp.metric].slug, GroupBy.GroupByKey(dimension), matched));
      error := if ok then None else Some(InvalidOffer);
    }

    /** The end of addFlatFee: claim the key and append the card, which has no feature. */
    method AddFee(e: Entry) returns (ok: bool)
      requires Valid() && e.feature.None?
      modifies this`rateCardKeys, this`rateCards, this`log
      ensures ok <==> e.card.key !in old(rateCardKeys)
      ensures ok ==> Valid() && log == Snoc(old(log), e)
    {
      ok := ClaimRateCardKey(e.card.key, e.pricing);
      if !ok {
        return;
      }
      rateCards := rateCards + [e.card];
      log := Snoc(log, e);
    }

    /** addFlatFee. */
    method AddFlatFee(sp: ServicePricing) returns (ok: bool)
      requires Valid()
      modifies this`rateCardKeys, this`rateCards, this`log
      ensures ok <==> FeeOk(env.setString, sp) && FeeKey(env, sp) !in old(rateCardKeys)
      ensures ok ==> Valid() && log == Snoc(old(log), FeeEntry(sp, FeeKey(env, sp), FeeAmount(env.setString, sp)))
    {
      if sp.amount == "" || !DiscountOk(sp.discount) {
        return false;
      }
      var key := FeeKey(env, sp);
      var amount := Decimals.MultiplyAmount(env.setString, sp.amount, FeeQuantity(sp));
      if amount.None? {
        return false;
      }
      if sp.chargeType.Recurring? && sp.interval != "" && sp.interval != "Monthly" {
        return false;
      }
      ok := AddFee(FeeEntry(sp, key, amount.value));
    }
  }

  /** The log with the cards of the first n rates of sp. */
  function RatesAdded(log: Log, sp: ServicePricing, featureOf: Rate -> Feature, n: nat): Log
    requires n <= |sp.rates|
  {
    if n == 0 then log
    else Snoc(RatesAdded(log, sp, featureOf, n - 1), CardFor(sp, n - 1, featureOf(sp.rates[n - 1])))
  }

  lemma {:induction false} RatesAddedExtends(log: Log, sp: ServicePricing, featureOf: Rate -> Feature, n: nat)
    requires n <= |sp.rates|
    ensures RatesAdded(log, sp, featureOf, n) == Extend(log, UsageEntries(sp, featureOf), n)
  {
    if n > 0 {
      RatesAddedExtends(log, sp, featureOf, n - 1);
    }
  }

  lemma {:induction false} ClashStays(log: Log, sp: ServicePricing, featureOf: Rate -> Feature, i: nat, n: nat)
    requires i <= n <= |sp.rates|
    ensures NoClash(RatesAdded(log, sp, featureOf, n)) ==> NoClash(RatesAdded(log, sp, featureOf, i))
  {
    if i < n {
      ClashStays(log, sp, featureOf, i, n - 1);
    }
  }

  /** A rate that cannot be priced, or whose key is taken when its turn comes, spoils the whole pricing. */
  lemma CannotAdd(sp: ServicePricing, featureOf: Rate -> Feature, log: Log, i: nat)
    requires i < |sp.rates|
    ensures !Priced(sp.rates[i])
            || featureOf(sp.rates[i]).key in Fold(RatesAdded(log, sp, featureOf, i)).rateCardKeys ==>
      !(AllPriced(sp.rates, |sp.rates|) && NoClash(RatesAdded(log, sp, featureOf, |sp.rates|)))
  {
    ClashStays(log, sp, featureOf, i + 1, |sp.rates|);
    PricedPrefix(sp.rates, i + 1, |sp.rates|);
  }

  lemma {:induction false} PricedPrefix(rates: seq<Rate>, n: nat, m: nat)
    requires n <= m <= |rates|
    ensures AllPriced(rates, m) ==> AllPriced(rates, n)
  {
    if n < m {
      PricedPrefix(rates, n, m - 1);
    }
  }
}
