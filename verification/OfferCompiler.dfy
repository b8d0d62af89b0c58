/**
 buildOfferMapping and setFeatureIDs: an Offer is accepted exactly when it can be represented, and the
 mapping is then the faithful image of its pricings.
 */
module OfferCompiler {
  import opened Common
  import opened OfferMapping
  import opened OfferBuilder
  import OfferCards

  /** The log with the entries of one more pricing. */
  function Added(entries: seq<Entry>, log: Log): Log {
    Extend(log, entries, |entries|)
  }

  /** What has been added after the first n pricings. */
  ghost function LogOf(entriesOf: ServicePricing -> seq<Entry>, pricings: seq<ServicePricing>, n: nat): Log
    requires n <= |pricings|
  {
    if n == 0 then Empty else Added(entriesOf(pricings[n - 1]), LogOf(entriesOf, pricings, n - 1))
  }

  function MetricsOf(pricings: seq<ServicePricing>, n: nat): (r: set<string>)
    requires n <= |pricings|
    ensures forall m :: m in r <==> exists i :: 0 <= i < n && pricings[i].chargeType.Usage? && pricings[i].metric == m
  {
    if n == 0 then {}
    else MetricsOf(pricings, n - 1) + MetricOf(pricings[n - 1])
  }

  function MetricOf(sp: ServicePricing): set<string> {
    if sp.chargeType.Usage? then {sp.metric} else {}
  }

  /** A pricing that is fine on its own can follow what is already in the log. */
  predicate Addable(sp: ServicePricing, entries: seq<Entry>, priced: set<string>, log: Log) {
    MetricOf(sp) !! priced && NoClash(Added(entries, log))
  }

  /** The first n pricings pass one after the other. */
  ghost predicate Passes(fits: ServicePricing -> bool, entriesOf: ServicePricing -> seq<Entry>,
                         pricings: seq<ServicePricing>, n: nat)
    requires n <= |pricings|
  {
    n == 0 || (var sp := pricings[n - 1];
               && Passes(fits, entriesOf, pricings, n - 1) && fits(sp)
               && Addable(sp, entriesOf(sp), MetricsOf(pricings, n - 1), LogOf(entriesOf, pricings, n - 1)))
  }

  lemma {:induction false} PassesPrefix(fits: ServicePricing -> bool, entriesOf: ServicePricing -> seq<Entry>,
                                        pricings: seq<ServicePricing>, n: nat, m: nat)
    requires n <= m <= |pricings|
    ensures Passes(fits, entriesOf, pricings, m) ==> Passes(fits, entriesOf, pricings, n)
  {
    if n < m {
      PassesPrefix(fits, entriesOf, pricings, n, m - 1);
    }
  }

  lemma UsageCase(env: Env, meters: map<string, MeterInfo>, sp: ServicePricing, log: Log)
    requires sp.chargeType.Usage?
    ensures PricingOk(env, meters, sp) <==> UsageChecks(env, meters, sp) && AllPriced(sp.rates, |sp.rates|)
    ensures sp.metric in meters ==>
      Added(EntriesOf(env, meters, sp), log)
      == RatesAdded(log, sp, UsageFeatures(env, meters[sp.metric], sp.rates), |sp.rates|)
  {
    if sp.metric in meters {
      RatesAddedExtends(log, sp, UsageFeatures(env, meters[sp.metric], sp.rates), |sp.rates|);
    }
  }

  /** A fee fits exactly when it is chargeable, and adds its one card under its key. */
  ghost predicate FeeAdded(env: Env, sp: ServicePricing, log: Log, fits: bool, entries: seq<Entry>) {
    && (fits <==> FeeOk(env.setString, sp))
    && Added(entries, log) == Snoc(log, FeeEntry(sp, FeeKey(env, sp), FeeAmount(env.setString, sp)))
    && (NoClash(Added(entries, log)) <==> FeeKey(env, sp) !in Fold(log).rateCardKeys)
  }

  lemma FeeCase(env: Env, meters: map<string, MeterInfo>, sp: ServicePricing, log: Log)
    requires (sp.chargeType.OneTime? || sp.chargeType.Recurring?) && NoClash(log)
    ensures FeeAdded(env, sp, log, PricingOk(env, meters, sp), EntriesOf(env, meters, sp))
  {
    AddedOne(FeeEntry(sp, FeeKey(env, sp), FeeAmount(env.setString, sp)), log);
  }

  lemma AddedOne(e: Entry, log: Log)
    ensures Added([e], log) == Snoc(log, e)
    ensures NoClash(log) ==> (NoClash(Added([e], log)) <==> e.card.key !in Fold(log).rateCardKeys)
  {
    assert Extend(log, [e], 0) == log;
  }

  /** The usage branch of one turn. */
  method AddUsagePricing(b: MappingBuilder, sp: ServicePricing, ghost fits: bool, ghost entries: seq<Entry>)
    returns (error: Option<OfferError>)
    requires b.Valid() && sp.chargeType.Usage?
    requires fits == PricingOk(b.env, b.meters, sp) && entries == EntriesOf(b.env, b.meters, sp)
    modifies b
    ensures error.None? <==> fits && Addable(sp, entries, old(b.pricedMetrics).Keys, old(b.log))
    ensures error.None? ==> b.Valid() && b.log == Added(entries, old(b.log))
    ensures error.None? ==> b.pricedMetrics.Keys == old(b.pricedMetrics).Keys + MetricOf(sp)
    ensures error.Some? ==> error.value == if sp.metric !in b.meters then MeterNotFound(sp.metric) else InvalidOffer
  {
    UsageCase(b.env, b.meters, sp, b.log);
    error := b.AddUsage(sp);
  }

  /** The fee branch of one turn. */
  method AddFeePricing(b: MappingBuilder, sp: ServicePricing, ghost fits: bool, ghost entries: seq<Entry>)
    returns (ok: bool)
    requires b.Valid() && !sp.chargeType.Usage? && FeeAdded(b.env, sp, b.log, fits, entries)
    modifies b
    ensures ok <==> fits && Addable(sp, entries, old(b.pricedMetrics).Keys, old(b.log))
    ensures ok ==> b.Valid() && b.log == Added(entries, old(b.log)) && b.pricedMetrics == old(b.pricedMetrics)
  {
    ok := b.AddFlatFee(sp);
  }

  /** One turn of buildOfferMapping's loop. */
  method AddPricing(b: MappingBuilder, sp: ServicePricing, ghost fits: bool, ghost entries: seq<Entry>)
    returns (error: Option<OfferError>)
    requires b.Valid()
    requires fits == PricingOk(b.env, b.meters, sp) && entries == EntriesOf(b.env, b.meters, sp)
    modifies b
    ensures error.None? <==> fits && Addable(sp, entries, old(b.pricedMetrics).Keys, old(b.log))
    ensures error.None? ==> b.Valid() && b.log == Added(entries, old(b.log))
    ensures error.None? ==> b.pricedMetrics.Keys == old(b.pricedMetrics).Keys + MetricOf(sp)
    ensures error.Some? ==>
      error.value == if sp.chargeType.Usage? && sp.metric !in b.meters then MeterNotFound(sp.metric) else InvalidOffer
  {
    if sp.chargeType.Usage? {
      error := AddUsagePricing(b, sp, fits, entries);
    } else if sp.chargeType.OneTime? || sp.chargeType.Recurring? {
      FeeCase(b.env, b.meters, sp, b.log);
      var ok := AddFeePricing(b, sp, fits, entries);
      error := if ok then None else Some(InvalidOffer);
    } else {
      error := Some(InvalidOffer);
    }
  }

  /** buildOfferMapping's loop. */
  method AddAll(b: MappingBuilder, pricings: seq<ServicePricing>, ghost fits: ServicePricing -> bool,
                ghost entriesOf: ServicePricing -> seq<Entry>) returns (error: Option<OfferError>)
    requires b.Valid() && b.log == Empty && b.pricedMetrics == map[]
    requires fits == FitRule(b.env, b.meters) && entriesOf == EntryRule(b.env, b.meters)
    modifies b
    ensures error.None? <==> Passes(fits, entriesOf, pricings, |pricings|)
    ensures error.None? ==> b.Valid() && b.log == LogOf(entriesOf, pricings, |pricings|)
    ensures error.Some? && error.value.MeterNotFound? ==>
      error.value.metric !in b.meters && exists i :: 0 <= i < |pricings| && pricings[i].metric == error.value.metric
  {
    error := None;
    for i := 0 to |pricings|
      invariant b.Valid() && error.None?
      invariant b.log == LogOf(entriesOf, pricings, i) && b.pricedMetrics.Keys == MetricsOf(pricings, i)
      invariant Passes(fits, entriesOf, pricings, i)
    {
      error := AddPricing(b, pricings[i], fits(pricings[i]), entriesOf(pricings[i]));
      if error.Some? {
        PassesPrefix(fits, entriesOf, pricings, i + 1, |pricings|);
        return;
      }
    }
  }

  /** buildOfferMapping. */
  method BuildOfferMapping(env: Env, meters: map<string, MeterInfo>, pricings: seq<ServicePricing>)
    returns (r: Result<Mapping, OfferError>)
    ensures r.Ok? <==> Acceptable(env, meters, pricings)
    ensures r.Ok? ==> MappingOf(r.value, AllEntries(EntryRule(env, meters), pricings, |pricings|))
    ensures r.Ok? ==>
      OfferCards.EachBills(r.value.cards, OfferCards.Sources(pricings, |pricings|), OfferCards.BillRule(env))
    ensures r.Err? && r.error.MeterNotFound? ==>
      r.error.metric !in meters && exists i :: 0 <= i < |pricings| && pricings[i].metric == r.error.metric
  {
    if |pricings| == 0 {
      return Err(InvalidOffer);
    }
    var b := new MappingBuilder(env, meters);
    PassesIffRepresentable(FitRule(env, meters), EntryRule(env, meters), pricings);
    LogIsImage(env, meters, pricings);
    var error := AddAll(b, pricings, FitRule(env, meters), EntryRule(env, meters));
    if error.Some? {
      return Err(error.value);
    }
    OfferCards.AcceptedBills(env, meters, pricings);
    r := Ok(b.Built().mapping);
  }

  lemma {:induction false} LogItems(entriesOf: ServicePricing -> seq<Entry>, pricings: seq<ServicePricing>, n: nat)
    requires n <= |pricings|
    ensures Items(LogOf(entriesOf, pricings, n)) == AllEntries(entriesOf, pricings, n)
  {
    if n > 0 {
      LogItems(entriesOf, pricings, n - 1);
      var added := entriesOf(pricings[n - 1]);
      ItemsExtend(LogOf(entriesOf, pricings, n - 1), added, |added|);
      assert added[..|added|] == added;
    }
  }

  /** The claimed keys are those of the entries, so claiming detects exactly the repeats. */
  lemma {:induction false} FoldKeys(log: Log)
    ensures Fold(log).rateCardKeys.Keys == KeysIn(Items(log))
    ensures NoClash(log) <==> DistinctKeys(Items(log))
  {
    if log.Snoc? {
      FoldKeys(log.init);
      KeysSnoc(Items(log.init), log.last);
      DistinctSnoc(Items(log.init), log.last);
    }
  }

  lemma DistinctSnoc(entries: seq<Entry>, e: Entry)
    ensures DistinctKeys(entries + [e]) <==> DistinctKeys(entries) && e.card.key !in KeysIn(entries)
  {
    var longer, n := entries + [e], |entries|;
    assert longer[n] == e;
    assert forall i :: 0 <= i < n ==> longer[i] == entries[i];
    if DistinctKeys(longer) {
      assert forall i, j :: 0 <= i < j < n ==> longer[i].card.key != longer[j].card.key;
    }
  }

  /** A usage entry's card and feature share their key. */
  predicate Linked(log: Log) {
    log.Snoc? ==>
      Linked(log.init) && (log.last.feature.Some? ==> log.last.feature.value.key == log.last.card.key)
  }

  lemma {:induction false} FoldFeatures(log: Log)
    requires NoClash(log) && Linked(log)
    ensures Fold(log).featureByKey.Keys == UsageKeysIn(Items(log))
    ensures Fold(log).mapping.features == FeaturesIn(Items(log))
  {
    if log.Snoc? {
      FoldFeatures(log.init);
      FoldKeys(log.init);
      UsageKeysSnoc(Items(log.init), log.last);
      FeaturesSnoc(Items(log.init), log.last);
      UsageKeysAreKeys(Items(log.init));
      StepFeatures(Fold(log.init), log.last);
    }
  }

  function FeatureOf(e: Entry): seq<Feature> {
    if e.feature.Some? then [e.feature.value] else []
  }

  lemma FeaturesSnoc(entries: seq<Entry>, e: Entry)
    ensures FeaturesIn(entries + [e]) == FeaturesIn(entries) + FeatureOf(e)
  {
    assert (entries + [e])[..|entries|] == entries;
  }

  lemma UsageKeysAreKeys(entries: seq<Entry>)
    ensures UsageKeysIn(entries) <= KeysIn(entries)
  {
  }

  /** A step whose key is not among the features' adds the entry's feature. */
  lemma StepFeatures(st: State, e: Entry)
    requires e.feature.Some? ==> e.feature.value.key == e.card.key
    requires e.card.key !in st.featureByKey
    ensures Step(st, e).mapping.features == st.mapping.features + FeatureOf(e)
    ensures Step(st, e).featureByKey.Keys == st.featureByKey.Keys + if e.feature.Some? then {e.card.key} else {}
  {
  }

  lemma {:induction false} FoldCards(log: Log)
    ensures Fold(log).mapping.cards == CardsIn(Items(log))
    ensures Fold(log).mapping.cardFeatures.Keys == UsageKeysIn(Items(log))
    ensures forall k :: k in Fold(log).mapping.cardFeatures ==> Fold(log).mapping.cardFeatures[k] == k
  {
    if log.Snoc? {
      FoldCards(log.init);
      UsageKeysSnoc(Items(log.init), log.last);
    }
  }

  lemma {:induction false} FoldSlugs(log: Log)
    ensures NoRepeats(Fold(log).mapping.meterSlugs)
    ensures (set s | s in Fold(log).mapping.meterSlugs) == SlugsIn(Fold(log).mapping.features)
  {
    if log.Snoc? {
      FoldSlugs(log.init);
      if log.last.feature.Some? {
        SlugsSnoc(Fold(log.init).mapping.features, log.last.feature.value);
        var m := Fold(log.init).mapping;
        SlugAdded(m.meterSlugs, log.last.feature.value.meterSlug);
      }
    }
  }

  lemma SlugAdded(slugs: seq<string>, slug: string)
    requires NoRepeats(slugs)
    ensures NoRepeats(WithSlug(slugs, slug))
    ensures (set s | s in WithSlug(slugs, slug)) == (set s | s in slugs) + {slug}
  {
  }

  lemma {:induction false} LinkedExtend(log: Log, entries: seq<Entry>, n: nat)
    requires n <= |entries| && Linked(log)
    requires forall i :: 0 <= i < |entries| && entries[i].feature.Some? ==>
                 entries[i].feature.value.key == entries[i].card.key
    ensures Linked(Extend(log, entries, n))
  {
    if n > 0 {
      LinkedExtend(log, entries, n - 1);
    }
  }

  lemma EntriesLinked(env: Env, meters: map<string, MeterInfo>, sp: ServicePricing)
    ensures var entries := EntriesOf(env, meters, sp);
      forall i :: 0 <= i < |entries| && entries[i].feature.Some? ==> entries[i].feature.value.key == entries[i].card.key
  {
  }

  lemma {:induction false} LogLinked(env: Env, meters: map<string, MeterInfo>, pricings: seq<ServicePricing>, n: nat)
    requires n <= |pricings|
    ensures Linked(LogOf(EntryRule(env, meters), pricings, n))
  {
    if n > 0 {
      LogLinked(env, meters, pricings, n - 1);
      EntriesLinked(env, meters, pricings[n - 1]);
      var added := EntriesOf(env, meters, pricings[n - 1]);
      LinkedExtend(LogOf(EntryRule(env, meters), pricings, n - 1), added, |added|);
    }
  }

  lemma FoldIsImage(log: Log)
    requires NoClash(log) && Linked(log)
    ensures MappingOf(Fold(log).mapping, Items(log))
  {
    FoldFeatures(log);
    FoldCards(log);
    FoldSlugs(log);
  }

  lemma LogIsImage(env: Env, meters: map<string, MeterInfo>, pricings: seq<ServicePricing>)
    ensures var entriesOf := EntryRule(env, meters); var log := LogOf(entriesOf, pricings, |pricings|);
      NoClash(log) ==> MappingOf(Fold(log).mapping, AllEntries(entriesOf, pricings, |pricings|))
  {
    LogItems(EntryRule(env, meters), pricings, |pricings|);
    LogLinked(env, meters, pricings, |pricings|);
    var log := LogOf(EntryRule(env, meters), pricings, |pricings|);
    if NoClash(log) {
      FoldIsImage(log);
    }
  }

  ghost predicate DistinctMetricsUpTo(pricings: seq<ServicePricing>, n: nat)
    requires n <= |pricings|
  {
    forall i, j :: 0 <= i < j < n && pricings[i].chargeType.Usage? && pricings[j].chargeType.Usage? ==>
      pricings[i].metric != pricings[j].metric
  }

  lemma {:induction false} PassesExactly(fits: ServicePricing -> bool, entriesOf: ServicePricing -> seq<Entry>,
                                         pricings: seq<ServicePricing>, n: nat)
    requires n <= |pricings|
    ensures Passes(fits, entriesOf, pricings, n) <==>
      && (forall i :: 0 <= i < n ==> fits(pricings[i])) && DistinctMetricsUpTo(pricings, n)
      && NoClash(LogOf(entriesOf, pricings, n))
  {
    if n > 0 {
      PassesExactly(fits, entriesOf, pricings, n - 1);
      var added := entriesOf(pricings[n - 1]);
      ClashRemains(LogOf(entriesOf, pricings, n - 1), added, 0, |added|);
      assert DistinctMetricsUpTo(pricings, n) <==>
        DistinctMetricsUpTo(pricings, n - 1) && MetricOf(pricings[n - 1]) !! MetricsOf(pricings, n - 1);
    }
  }

  lemma PassesIffRepresentable(fits: ServicePricing -> bool, entriesOf: ServicePricing -> seq<Entry>,
                               pricings: seq<ServicePricing>)
    ensures Passes(fits, entriesOf, pricings, |pricings|) <==> Representable(fits, entriesOf, pricings)
  {
    PassesExactly(fits, entriesOf, pricings, |pricings|);
    LogItems(entriesOf, pricings, |pricings|);
    FoldKeys(LogOf(entriesOf, pricings, |pricings|));
  }
}
