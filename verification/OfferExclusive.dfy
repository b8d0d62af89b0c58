/** No usage is charged twice: across all the pricings of an accepted Offer, an event counts on one card at most. */
module OfferExclusive {
  import opened OfferMapping
  import opened OfferSelection
  import opened OfferCharges
  import GroupBy

  /** Where the k-th entry comes from: the r-th of the p-th pricing. */
  lemma {:induction false} Locate(entriesOf: ServicePricing -> seq<Entry>, pricings: seq<ServicePricing>, n: nat,
                                  k: nat)
    returns (p: nat, r: nat)
    requires n <= |pricings| && k < |AllEntries(entriesOf, pricings, n)|
    ensures p < n && r < |entriesOf(pricings[p])| && k == |AllEntries(entriesOf, pricings, p)| + r
    ensures AllEntries(entriesOf, pricings, n)[k] == entriesOf(pricings[p])[r]
  {
    var before := AllEntries(entriesOf, pricings, n - 1);
    if k < |before| {
      p, r := Locate(entriesOf, pricings, n - 1, k);
    } else {
      p, r := n - 1, k - |before|;
    }
  }

  ghost predicate CountedOn(remote: map<string, Meter>, e: Entry, ev: GroupBy.Event) {
    e.feature.Some? && Selection(remote, e.feature.value)(ev)
  }

  /** A card counts only events of its own pricing's metric, and only those its own rate's filter selects. */
  lemma CountedBy(env: Env, meters: map<string, MeterInfo>, sp: ServicePricing, remote: map<string, Meter>, r: nat,
                  ev: GroupBy.Event)
    requires PricingOk(env, meters, sp) && r < |EntriesOf(env, meters, sp)|
    requires sp.chargeType.Usage? ==> sp.metric in meters && Provisioned(meters[sp.metric], sp.metric, remote)
    requires CountedOn(remote, EntriesOf(env, meters, sp)[r], ev)
    ensures sp.chargeType.Usage? && ev.meterName == sp.metric && Partition(sp.rates) && r < |sp.rates|
    ensures sp.metric in meters && meters[sp.metric].slug in remote
    ensures var groupBy := remote[meters[sp.metric].slug].groupBy;
      PathsOk(groupBy) && Selects(groupBy, RateFilter(sp.rates, r), ev)
  {
    if sp.chargeType.Usage? {
      CompiledCards(env, meters, sp);
      assert CardOf(sp, meters[sp.metric].slug, EntriesOf(env, meters, sp)[r], r);
    }
  }

  ghost predicate Ready(env: Env, meters: map<string, MeterInfo>, remote: map<string, Meter>, sp: ServicePricing) {
    && PricingOk(env, meters, sp)
    && (sp.chargeType.Usage? ==> sp.metric in meters && Provisioned(meters[sp.metric], sp.metric, remote))
  }

  lemma SamePricing(env: Env, meters: map<string, MeterInfo>, sp: ServicePricing, remote: map<string, Meter>, r: nat,
                    s: nat, ev: GroupBy.Event)
    requires Ready(env, meters, remote, sp) && r < s < |EntriesOf(env, meters, sp)|
    ensures var entries := EntriesOf(env, meters, sp);
      !(CountedOn(remote, entries[r], ev) && CountedOn(remote, entries[s], ev))
  {
    if CountedOn(remote, EntriesOf(env, meters, sp)[r], ev) && CountedOn(remote, EntriesOf(env, meters, sp)[s], ev) {
      CountedBy(env, meters, sp, remote, r, ev);
      CountedBy(env, meters, sp, remote, s, ev);
      CardsExclusive(sp.rates, remote[meters[sp.metric].slug].groupBy, ev, r, s);
    }
  }

  lemma OtherPricing(env: Env, meters: map<string, MeterInfo>, a: ServicePricing, b: ServicePricing,
                     remote: map<string, Meter>, r: nat, s: nat, ev: GroupBy.Event)
    requires Ready(env, meters, remote, a) && r < |EntriesOf(env, meters, a)|
    requires Ready(env, meters, remote, b) && s < |EntriesOf(env, meters, b)|
    requires a.chargeType.Usage? && b.chargeType.Usage? ==> a.metric != b.metric
    ensures !(&& CountedOn(remote, EntriesOf(env, meters, a)[r], ev)
              && CountedOn(remote, EntriesOf(env, meters, b)[s], ev))
  {
    if CountedOn(remote, EntriesOf(env, meters, a)[r], ev) {
      CountedBy(env, meters, a, remote, r, ev);
      if CountedOn(remote, EntriesOf(env, meters, b)[s], ev) {
        CountedBy(env, meters, b, remote, s, ev);
      }
    }
  }

  /** On provisioned meters no event counts on two cards of an accepted Offer, of one pricing or of two. */
  lemma OfferExclusive(env: Env, meters: map<string, MeterInfo>, pricings: seq<ServicePricing>,
                       remote: map<string, Meter>, entries: seq<Entry>, ev: GroupBy.Event, i: nat, j: nat)
    requires Acceptable(env, meters, pricings) && entries == AllEntries(EntryRule(env, meters), pricings, |pricings|)
    requires forall k :: 0 <= k < |pricings| && pricings[k].chargeType.Usage? ==>
      pricings[k].metric in meters && Provisioned(meters[pricings[k].metric], pricings[k].metric, remote)
    requires i < j < |entries|
    ensures !(CountedOn(remote, entries[i], ev) && CountedOn(remote, entries[j], ev))
  {
    var p, r := Locate(EntryRule(env, meters), pricings, |pricings|, i);
    var q, s := Locate(EntryRule(env, meters), pricings, |pricings|, j);
    assert FitRule(env, meters)(pricings[p]) && FitRule(env, meters)(pricings[q]);
    if p == q {
      SamePricing(env, meters, pricings[p], remote, r, s, ev);
    } else {
      OtherPricing(env, meters, pricings[p], pricings[q], remote, r, s, ev);
    }
  }
}
