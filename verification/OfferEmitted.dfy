/**
 The mapping as it is sent: rate cards that point at created features by id. What OpenMeter bills for those cards,
 looking each feature up by its id, is what the Offer's rules ask for.
 */
module OfferEmitted {
  import opened Common
  import opened OfferMapping
  import opened OfferBuilder
  import opened OfferFeatures
  import opened OfferCharges
  import OfferSelection
  import GroupBy

  /** The features of a mapping have been created: each id leads to the feature itself. */
  ghost predicate Created(m: Mapping, ids: map<string, string>, catalog: map<string, Feature>) {
    forall k :: 0 <= k < |m.features| ==>
      && m.features[k].key in ids && ids[m.features[k].key] in catalog
      && catalog[ids[m.features[k].key]] == m.features[k]
  }

  /** What OpenMeter bills for a card: the usage its feature counts, converted, priced and discounted. */
  ghost function EmittedBill(card: RateCard, catalog: map<string, Feature>, remote: map<string, Meter>,
                             money: string -> real, events: seq<GroupBy.Event>): real {
    if card.featureId.None? || card.featureId.value !in catalog then 0.0
    else
      var usage := Quantity(Selection(remote, catalog[card.featureId.value]), events, |events|);
      Discounted(card.discount, CardCharge(card.price, money, Units(card.conversion, money, usage)))
  }

  /** The bills of the mapping's cards once setFeatureIDs has pointed them at their features. */
  ghost function EmittedBills(m: Mapping, ids: map<string, string>, catalog: map<string, Feature>,
                              remote: map<string, Meter>, money: string -> real,
                              events: seq<GroupBy.Event>): nat -> real {
    (i: nat) =>
      if i < |m.cards|
        then EmittedBill(WithId(m.cards[i], m.cardFeatures, ids), catalog, remote, money, events)
        else 0.0
  }

  lemma EmittedIsEntry(m: Mapping, entries: seq<Entry>, ids: map<string, string>, catalog: map<string, Feature>,
                       remote: map<string, Meter>, money: string -> real, events: seq<GroupBy.Event>, i: nat)
    requires MappingOf(m, entries) && DistinctKeys(entries) && Keyed(entries) && Created(m, ids, catalog)
    requires i < |entries|
    ensures EmittedBill(WithId(m.cards[i], m.cardFeatures, ids), catalog, remote, money, events)
            == CardBill(entries[i], remote, money, events)
  {
    PointsAtOwnFeature(m, entries, ids, i);
    if entries[i].feature.Some? {
      FeaturesInOrder(entries, i);
      assert m.features[Rank(entries, i)] == entries[i].feature.value;
    }
  }

  lemma EmittedBillsEntries(m: Mapping, entries: seq<Entry>, ids: map<string, string>, catalog: map<string, Feature>,
                            remote: map<string, Meter>, money: string -> real, events: seq<GroupBy.Event>)
    requires MappingOf(m, entries) && DistinctKeys(entries) && Keyed(entries) && Created(m, ids, catalog)
    ensures Total(EmittedBills(m, ids, catalog, remote, money, events), |m.cards|)
            == Total(CardBills(entries, remote, money, events), |entries|)
  {
    var f, g := EmittedBills(m, ids, catalog, remote, money, events), CardBills(entries, remote, money, events);
    forall i: nat | i < |entries| ensures f(i) == g(i) {
      EmittedIsEntry(m, entries, ids, catalog, remote, money, events, i);
    }
    TotalSame(f, g, |entries|);
  }

  /**
   From the Offer to the bill: for every accepted Offer whose pricings are well read, on provisioned meters, once its
   features are created and its cards point at them, the emitted cards bill what the rules ask for on any events.
   */
  lemma EmittedMeaning(env: Env, meters: map<string, MeterInfo>, pricings: seq<ServicePricing>, entries: seq<Entry>,
                       m: Mapping, ids: map<string, string>, catalog: map<string, Feature>, remote: map<string, Meter>,
                       money: string -> real, events: seq<GroupBy.Event>)
    requires Acceptable(env, meters, pricings) && entries == AllEntries(EntryRule(env, meters), pricings, |pricings|)
    requires MappingOf(m, entries) && Created(m, ids, catalog)
    requires forall i :: 0 <= i < |pricings| && pricings[i].chargeType.Usage? ==>
      && OfferSelection.WellRead(pricings[i].rates) && pricings[i].metric in meters
      && Provisioned(meters[pricings[i].metric], pricings[i].metric, remote)
    ensures Total(EmittedBills(m, ids, catalog, remote, money, events), |m.cards|)
            == OfferBill(pricings, money, events, |pricings|)
  {
    AllKeyed(env, meters, pricings);
    EmittedBillsEntries(m, entries, ids, catalog, remote, money, events);
    MeaningPreserved(env, meters, pricings, remote, money, events, entries);
  }
}
