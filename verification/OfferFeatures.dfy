/**
 Which feature each rate card ends up pointing at once the features have ids, the shape of feature keys, what they tell
 apart, and that the order of a pricing's rates does not matter to its features.
 */
module OfferFeatures {
  import opened Common
  import opened Keys
  import opened OfferMapping
  import opened OfferBuilder
  import opened OfferCompiler
  import GroupBy

  function WithId(card: RateCard, cardFeatures: map<string, string>, ids: map<string, string>): RateCard {
    if card.key in cardFeatures && cardFeatures[card.key] in ids
    then card.(featureId := Some(ids[cardFeatures[card.key]]))
    else card
  }

  predicate HasId(card: RateCard, cardFeatures: map<string, string>, ids: map<string, string>) {
    card.key in cardFeatures ==> cardFeatures[card.key] in ids
  }

  /** setFeatureIDs, writing the cards in place. */
  method SetFeatureIDs(cards: array<RateCard>, cardFeatures: map<string, string>, ids: map<string, string>)
    returns (ok: bool)
    modifies cards
    ensures ok <==> forall i :: 0 <= i < cards.Length ==> HasId(old(cards[i]), cardFeatures, ids)
    ensures ok ==> forall i :: 0 <= i < cards.Length ==> cards[i] == WithId(old(cards[i]), cardFeatures, ids)
    ensures forall i :: 0 <= i < cards.Length ==> cards[i].(featureId := None) == old(cards[i]).(featureId := None)
  {
    for i := 0 to cards.Length
      invariant forall k :: 0 <= k < i ==> HasId(old(cards[k]), cardFeatures, ids)
      invariant forall k :: 0 <= k < i ==> cards[k] == WithId(old(cards[k]), cardFeatures, ids)
      invariant forall k :: i <= k < cards.Length ==> cards[k] == old(cards[k])
    {
      var card := cards[i];
      if card.key in cardFeatures {
        var featureKey := cardFeatures[card.key];
        if featureKey !in ids {
          return false;
        }
        cards[i] := card.(featureId := Some(ids[featureKey]));
      }
    }
    ok := true;
  }

  /** How many of the first n entries price usage. */
  function Rank(entries: seq<Entry>, n: nat): (r: nat)
    requires n <= |entries|
    ensures r <= n
  {
    if n == 0 then 0 else Rank(entries, n - 1) + if entries[n - 1].feature.Some? then 1 else 0
  }

  /** Usage cards and features correspond one to one, in order. */
  lemma {:induction false} FeaturesInOrder(entries: seq<Entry>, i: nat)
    requires i <= |entries|
    ensures |FeaturesIn(entries)| == Rank(entries, |entries|)
    ensures i < |entries| && entries[i].feature.Some? ==>
      Rank(entries, i) < |FeaturesIn(entries)| && FeaturesIn(entries)[Rank(entries, i)] == entries[i].feature.value
  {
    if entries != [] {
      var n := |entries| - 1;
      RankPrefix(entries, n, n);
      if i < n {
        RankPrefix(entries, n, i);
        FeaturesInOrder(entries[..n], i);
      } else {
        FeaturesInOrder(entries[..n], n);
      }
    }
  }

  lemma {:induction false} RankPrefix(entries: seq<Entry>, n: nat, i: nat)
    requires i <= n <= |entries|
    ensures Rank(entries[..n], i) == Rank(entries, i)
  {
    if i > 0 {
      RankPrefix(entries, n, i - 1);
    }
  }

  /** An entry made for a rate carries the feature of that rate's own filter; a fee carries none. */
  ghost predicate Faithful(env: Env, meters: map<string, MeterInfo>, e: Entry) {
    && e.card.featureId.None?
    && match e.rule
       case None => e.feature.None?
       case Some(rule) =>
         && rule.pricing.metric in meters && rule.index < |rule.pricing.rates|
         && e.feature == Some(UsageFeature(env, meters[rule.pricing.metric].slug,
                                           RateFilter(rule.pricing.rates, rule.index)))
         && e.card.key == e.feature.value.key
  }

  ghost function FaithRule(env: Env, meters: map<string, MeterInfo>): Entry -> bool {
    e => Faithful(env, meters, e)
  }

  ghost predicate Each(entries: seq<Entry>, p: Entry -> bool) {
    forall i :: 0 <= i < |entries| ==> p(entries[i])
  }

  lemma EntriesFaithful(env: Env, meters: map<string, MeterInfo>, sp: ServicePricing)
    ensures Each(EntryRule(env, meters)(sp), FaithRule(env, meters))
  {
    var entries := EntriesOf(env, meters, sp);
    forall i | 0 <= i < |entries| ensures Faithful(env, meters, entries[i]) {
      if sp.chargeType.Usage? {
        UsageFaithful(env, meters, sp, i);
      }
    }
  }

  lemma UsageFaithful(env: Env, meters: map<string, MeterInfo>, sp: ServicePricing, i: nat)
    requires sp.metric in meters && i < |sp.rates|
    ensures Faithful(env, meters, UsageEntries(sp, UsageFeatures(env, meters[sp.metric], sp.rates))[i])
  {
  }

  lemma {:induction false} EachOfAll(entriesOf: ServicePricing -> seq<Entry>, p: Entry -> bool,
                                     pricings: seq<ServicePricing>, n: nat)
    requires n <= |pricings| && forall sp :: Each(entriesOf(sp), p)
    ensures Each(AllEntries(entriesOf, pricings, n), p)
  {
    if n > 0 {
      EachOfAll(entriesOf, p, pricings, n - 1);
    }
  }

  lemma AllFaithful(env: Env, meters: map<string, MeterInfo>, pricings: seq<ServicePricing>)
    ensures Each(AllEntries(EntryRule(env, meters), pricings, |pricings|), FaithRule(env, meters))
  {
    forall sp ensures Each(EntryRule(env, meters)(sp), FaithRule(env, meters)) {
      EntriesFaithful(env, meters, sp);
    }
    EachOfAll(EntryRule(env, meters), FaithRule(env, meters), pricings, |pricings|);
  }

  /** Usage cards share their key with their feature and start without an id. */
  ghost predicate Keyed(entries: seq<Entry>) {
    forall i :: 0 <= i < |entries| ==>
      entries[i].card.featureId.None? &&
      (entries[i].feature.Some? ==> entries[i].feature.value.key == entries[i].card.key)
  }

  lemma PointsAtOwnFeature(m: Mapping, entries: seq<Entry>, ids: map<string, string>, i: nat)
    requires MappingOf(m, entries) && DistinctKeys(entries) && Keyed(entries) && i < |entries|
    requires forall k :: 0 <= k < |m.features| ==> m.features[k].key in ids
    ensures HasId(m.cards[i], m.cardFeatures, ids)
    ensures WithId(m.cards[i], m.cardFeatures, ids).featureId ==
            if entries[i].feature.Some? then Some(ids[m.cards[i].key]) else None
  {
    var card := entries[i].card;
    assert m.cards[i] == card;
    if entries[i].feature.Some? {
      FeaturesInOrder(entries, i);
      assert m.features[Rank(entries, i)].key == card.key;
      assert card.key in UsageKeysIn(entries);
    }
  }

  /** id is that of the feature e's own rate is priced on; a fee has none. */
  ghost predicate PointsRight(env: Env, meters: map<string, MeterInfo>, e: Entry, id: Option<string>,
                              ids: map<string, string>) {
    match e.rule
    case None => id.None?
    case Some(rule) =>
      && rule.pricing.metric in meters && rule.index < |rule.pricing.rates|
      && var feature := UsageFeature(env, meters[rule.pricing.metric].slug, RateFilter(rule.pricing.rates, rule.index));
         feature.key in ids && id == Some(ids[feature.key])
  }

  lemma FaithfulKeyed(env: Env, meters: map<string, MeterInfo>, e: Entry, ids: map<string, string>)
    requires Faithful(env, meters, e)
    ensures e.card.featureId.None? && (e.feature.Some? ==> e.feature.value.key == e.card.key)
    ensures e.feature.None? ==> PointsRight(env, meters, e, None, ids)
    ensures e.feature.Some? && e.card.key in ids ==> PointsRight(env, meters, e, Some(ids[e.card.key]), ids)
  {
  }

  lemma AllKeyed(env: Env, meters: map<string, MeterInfo>, pricings: seq<ServicePricing>)
    ensures Keyed(AllEntries(EntryRule(env, meters), pricings, |pricings|))
  {
    var entries := AllEntries(EntryRule(env, meters), pricings, |pricings|);
    AllFaithful(env, meters, pricings);
    forall k | 0 <= k < |entries|
      ensures entries[k].card.featureId.None?
      ensures entries[k].feature.Some? ==> entries[k].feature.value.key == entries[k].card.key
    {
      FaithfulKeyed(env, meters, entries[k], map[]);
    }
  }

  /** Once the features exist, each usage card points at the feature of its own rate's filter, each fee at none. */
  lemma CardsPointAtOwnFeatures(env: Env, meters: map<string, MeterInfo>, pricings: seq<ServicePricing>,
                                entries: seq<Entry>, m: Mapping, ids: map<string, string>, i: nat)
    requires Acceptable(env, meters, pricings) && entries == AllEntries(EntryRule(env, meters), pricings, |pricings|)
    requires MappingOf(m, entries) && i < |m.cards|
    requires forall k :: 0 <= k < |m.features| ==> m.features[k].key in ids
    ensures HasId(m.cards[i], m.cardFeatures, ids)
    ensures PointsRight(env, meters, entries[i], WithId(m.cards[i], m.cardFeatures, ids).featureId, ids)
  {
    AllFaithful(env, meters, pricings);
    AllKeyed(env, meters, pricings);
    PointsAtOwnFeature(m, entries, ids, i);
    FaithfulKeyed(env, meters, entries[i], ids);
  }

  // ---- The shape of feature keys ----

  /** The readable part of a bounded key once cut to size. */
  function Cut(text: string): string {
    if |text| > KEY_MAX_LEN - KEY_HASH_LEN - 1 then TrimRight(text[..KEY_MAX_LEN - KEY_HASH_LEN - 1]) else text
  }

  lemma SuffixKeepsValidity(p: string, suffix: string)
    requires suffix != "" && forall i :: 0 <= i < |suffix| ==> IsAlnum(suffix[i])
    ensures ValidKey(p + "_" + suffix) <==> ValidKey(p)
  {
    var key, n := p + "_" + suffix, |p|;
    assert key[n] == '_' && forall i :: 0 <= i < n ==> key[i] == p[i];
    assert forall i :: 0 <= i < |suffix| ==> key[n + 1 + i] == suffix[i];
    assert forall i :: n < i < |key| ==> key[i] == suffix[i - n - 1];
    if ValidKey(key) {
      assert n > 0 && key[n - 1] != '_';
      assert forall i :: 0 <= i < n ==> IsKeyChar(key[i]);
    }
  }

  /** Three joined parts, the last two possibly empty. */
  function Parts(slug: string, a: string, b: string): string {
    slug + "_" + a + "_" + b
  }

  /** When the parts and a digest make a valid key: nothing empty, or the empty part is cut away. */
  predicate KeyFits(slug: string, a: string, b: string) {
    if a != "" then b != "" || |slug| + |a| >= 52
    else |slug| >= if b == "" then 52 else 51
  }

  lemma JoinedKeys(x: string, y: string)
    requires ValidKey(x) && ValidKey(y)
    ensures ValidKey(x + "_" + y)
  {
  }

  lemma CutKey(key: string, n: nat)
    requires ValidKey(key) && 0 < n <= |key|
    ensures ValidKey(TrimRight(key[..n]))
  {
    var p := key[..n];
    var r := TrimRight(p);
    assert p[0] != '_';
  }

  /** Trailing separators go. */
  lemma TrimmedKey(key: string, text: string)
    requires ValidKey(key) && |key| <= |text| && text[..|key|] == key
    requires forall i :: |key| <= i < |text| ==> text[i] == '_'
    ensures TrimRight(text) == key
  {
    var r := TrimRight(text);
    assert text[|key| - 1] != '_';
  }

  lemma CutExactly(slug: string, a: string, b: string)
    requires ValidKey(slug) && (a == "" || ValidKey(a)) && (b == "" || ValidKey(b))
    ensures ValidKey(Cut(Parts(slug, a, b))) <==> KeyFits(slug, a, b)
  {
    var text := Parts(slug, a, b);
    var s := |slug|;
    if a != "" {
      JoinedKeys(slug, a);
      if b != "" {
        JoinedKeys(slug + "_" + a, b);
        if |text| > 53 {
          CutKey(text, 53);
        }
      } else if |text| > 53 {
        assert text[..53] == (slug + "_" + a)[..53];
        CutKey(slug + "_" + a, 53);
      }
    } else {
      assert text == slug + "__" + b;
      if s >= 53 {
        assert text[..53] == slug[..53];
        CutKey(slug, 53);
      } else if |text| > 53 && (b == "" || s >= 51) {
        assert text[..53][..s] == slug;
        TrimmedKey(slug, text[..53]);
      } else {
        EmptyMiddle(slug, b);
      }
    }
  }

  /** With room for a character of b, the doubled separator stays. */
  lemma EmptyMiddle(slug: string, b: string)
    requires ValidKey(slug) && (b == "" || ValidKey(b)) && (|slug| + 2 + |b| <= 53 || (b != "" && |slug| < 51))
    ensures !ValidKey(Cut(slug + "__" + b))
  {
    var text, s := slug + "__" + b, |slug|;
    var cut := Cut(text);
    assert text[s] == '_' && text[s + 1] == '_';
    if |text| > 53 {
      assert text[s + 2] == b[0];
      assert text[..53][s + 2] != '_';
      assert cut[s] == '_' && cut[s + 1] == '_';
    }
  }

  predicate FilterFits(slug: string, filter: Option<Filter>, lower: Lowering) {
    match filter
    case None => true
    case Some(Eq(key, value)) => KeyFits(slug, Sanitized(key, lower), Sanitized(value, lower))
    case Some(Nin(key, _)) => KeyFits(slug, Sanitized(key, lower), "other")
  }

  /** A feature key follows OpenMeter's rule exactly when no readable part is empty or the empty part is cut away. */
  lemma FeatureKeyExactly(env: Env, slug: string, filter: Option<Filter>)
    requires ValidKey(slug)
    ensures |UsageFeature(env, slug, filter).key| <= KEY_MAX_LEN
    ensures ValidKey(UsageFeature(env, slug, filter).key) <==> FilterFits(slug, filter, env.lower)
  {
    FallbacksAreKeys();
    BoundedExactly(Readable(slug, filter, env.lower), env.encode(slug, filter), env.sha);
    ReadableExactly(slug, filter, env.lower);
  }

  /** The digest characters that a feature's key ends in: its whole definition goes into them. */
  function Fingerprint(env: Env, slug: string, filter: Option<Filter>): string {
    env.sha(env.encode(slug, filter))[..KEY_HASH_LEN]
  }

  /** The encoding tells the two definitions apart, and so do the digest characters kept of it. */
  ghost predicate ToldApart(env: Env, slug: string, filter: Option<Filter>, slug': string, filter': Option<Filter>) {
    Fingerprint(env, slug, filter) == Fingerprint(env, slug', filter') ==> slug == slug' && filter == filter'
  }

  /**
   The same definition always yields the same key; two different ones share a key exactly when their digests begin alike
   and their readable parts are the same once cut. So when digests tell them apart, they never do.
   */
  lemma KeyIsDefinition(env: Env, slug: string, filter: Option<Filter>, slug': string, filter': Option<Filter>)
    ensures var key, key' := UsageFeature(env, slug, filter).key, UsageFeature(env, slug', filter').key;
      && (key == key' <==>
            && Fingerprint(env, slug, filter) == Fingerprint(env, slug', filter')
            && Cut(Readable(slug, filter, env.lower)) == Cut(Readable(slug', filter', env.lower)))
      && (ToldApart(env, slug, filter, slug', filter') ==> (key == key' <==> slug == slug' && filter == filter'))
  {
    FallbacksAreKeys();
    KeyParts(env, slug, filter);
    KeyParts(env, slug', filter');
  }

  lemma KeyParts(env: Env, slug: string, filter: Option<Filter>)
    ensures var key := UsageFeature(env, slug, filter).key;
      && |key| > KEY_HASH_LEN
      && key[|key| - KEY_HASH_LEN..] == Fingerprint(env, slug, filter)
      && key[..|key| - KEY_HASH_LEN - 1] == Cut(Readable(slug, filter, env.lower))
      && key == key[..|key| - KEY_HASH_LEN - 1] + "_" + key[|key| - KEY_HASH_LEN..]
  {
    FallbacksAreKeys();
  }

  lemma ReadableExactly(slug: string, filter: Option<Filter>, lower: Lowering)
    requires ValidKey(slug)
    ensures ValidKey(Cut(Readable(slug, filter, lower))) <==> FilterFits(slug, filter, lower)
  {
    match filter
    case None =>
      UnfilteredFits(slug);
    case Some(Eq(key, value)) =>
      SanitizedShape(key, lower);
      SanitizedShape(value, lower);
      CutExactly(slug, Sanitized(key, lower), Sanitized(value, lower));
    case Some(Nin(key, _)) =>
      SanitizedShape(key, lower);
      CutExactly(slug, Sanitized(key, lower), "other");
  }

  lemma UnfilteredFits(slug: string)
    requires ValidKey(slug)
    ensures ValidKey(Cut(slug + "_" + "all"))
  {
    var text := slug + "_" + "all";
    JoinedKeys(slug, "all");
    if |text| > 53 {
      CutKey(text, 53);
    }
  }

  lemma SanitizedShape(s: string, lower: Lowering)
    ensures Sanitized(s, lower) == "" || ValidKey(Sanitized(s, lower))
  {
    JoinOfRunsIsKey(Runs(Lowered(s, lower), |s|));
  }

  lemma BoundedExactly(text: string, identity: string, sha: string -> Digest)
    requires text != "" && ValidKey("feature")
    ensures ValidKey(BoundedKey(text, "feature", identity, sha)) <==> ValidKey(Cut(text))
  {
    SuffixKeepsValidity(Cut(text), sha(identity)[..KEY_HASH_LEN]);
  }

  // ---- The order of the rates ----

  lemma {:induction false} LexTotal(a: string, b: string)
    ensures LessOrEqual(a, b) || LessOrEqual(b, a)
    ensures LessOrEqual(a, b) && LessOrEqual(b, a) ==> a == b
  {
    if a != "" && b != "" {
      LexTotal(a[1..], b[1..]);
      assert a == [a[0]] + a[1..] && b == [b[0]] + b[1..];
    }
  }

  lemma {:induction false} LexTransitive(a: string, b: string, c: string)
    requires LessOrEqual(a, b) && LessOrEqual(b, c)
    ensures LessOrEqual(a, c)
  {
    if a != "" && a[0] == b[0] == c[0] {
      LexTransitive(a[1..], b[1..], c[1..]);
    }
  }

  /** Strictly ascending. */
  ghost predicate Ascending(vs: seq<string>) {
    vs == [] || ((forall w :: w in vs[1..] ==> w != vs[0] && LessOrEqual(vs[0], w)) && Ascending(vs[1..]))
  }

  lemma {:induction false} InsertAscends(v: string, vs: seq<string>)
    requires Ascending(vs) && v !in vs
    ensures Ascending(Insert(v, vs))
  {
    if vs != [] {
      LexTotal(v, vs[0]);
      if LessOrEqual(v, vs[0]) {
        forall w | w in vs ensures w != v && LessOrEqual(v, w) {
          if w != vs[0] {
            assert w in vs[1..];
            LexTransitive(v, vs[0], w);
          }
        }
        assert ([v] + vs)[1..] == vs;
      } else {
        InsertAscends(v, vs[1..]);
        assert ([vs[0]] + Insert(v, vs[1..]))[1..] == Insert(v, vs[1..]);
      }
    }
  }

  lemma {:induction false} SortedAscends(vs: seq<string>)
    requires NoRepeats(vs)
    ensures Ascending(Sorted(vs))
  {
    if vs != [] {
      SortedAscends(vs[1..]);
      InsertAscends(vs[0], Sorted(vs[1..]));
    }
  }

  /** There is one way to list given values strictly ascending. */
  lemma {:induction false} AscendingIsUnique(a: seq<string>, b: seq<string>)
    requires Ascending(a) && Ascending(b) && forall w :: w in a <==> w in b
    ensures a == b
  {
    assert b != [] ==> b[0] in b;
    if a != [] {
      assert a[0] in a && a[0] in b;
      LexTotal(a[0], b[0]);
      assert a[0] == b[0];
      forall w ensures w in a[1..] <==> w in b[1..] {
        assert w in a <==> w == a[0] || w in a[1..];
        assert w in b <==> w == b[0] || w in b[1..];
      }
      AscendingIsUnique(a[1..], b[1..]);
      assert a == [a[0]] + a[1..] && b == [b[0]] + b[1..];
    }
  }

  lemma {:induction false} MatchedDistinct(rates: seq<Rate>)
    requires DistinctValues(rates)
    ensures NoRepeats(MatchedValues(rates))
  {
    if rates != [] {
      var n := |rates| - 1;
      MatchedDistinct(rates[..n]);
      var before := MatchedValues(rates[..n]);
      assert forall i :: 0 <= i < n ==> rates[..n][i] == rates[i];
      assert rates[n].on.Some? ==> rates[n].on.value.value !in before;
      assert before + [] == before;
    }
  }

  /** The same rates, in any order. */
  ghost predicate SameRates(rates: seq<Rate>, others: seq<Rate>) {
    forall r :: r in rates <==> r in others
  }

  lemma MatchedAreSame(rates: seq<Rate>, others: seq<Rate>)
    requires SameRates(rates, others)
    ensures forall v :: v in MatchedValues(rates) ==> v in MatchedValues(others)
  {
    forall v | v in MatchedValues(rates) ensures v in MatchedValues(others) {
      var i :| 0 <= i < |rates| && rates[i].on.Some? && rates[i].on.value.value == v;
      assert rates[i] in others;
    }
  }

  lemma SortedIsStable(rates: seq<Rate>, others: seq<Rate>)
    requires DistinctValues(rates) && DistinctValues(others) && SameRates(rates, others)
    ensures Sorted(MatchedValues(rates)) == Sorted(MatchedValues(others))
    ensures MatchedValues(rates) == [] <==> MatchedValues(others) == []
  {
    var vs, ws := MatchedValues(rates), MatchedValues(others);
    MatchedAreSame(rates, others);
    MatchedAreSame(others, rates);
    MatchedDistinct(rates);
    MatchedDistinct(others);
    SortedAscends(vs);
    SortedAscends(ws);
    AscendingIsUnique(Sorted(vs), Sorted(ws));
    assert vs != [] ==> vs[0] in ws;
    assert ws != [] ==> ws[0] in vs;
  }

  /** The dimension the validation ends with is that of some match, and of every match that names one. */
  lemma {:induction false} DimensionIsCommon(rates: seq<Rate>, d: string)
    requires OneDimension(rates) && d != ""
    ensures Dimension(rates) == d <==> exists r :: r in rates && r.on.Some? && r.on.value.dimension == d
  {
    if rates != [] {
      var n := |rates| - 1;
      if rates[n].on.Some? {
        assert rates[n] in rates;
      } else {
        DimensionIsCommon(rates[..n], d);
        forall r | r in rates && r.on.Some? ensures r in rates[..n] {
        }
        assert forall r :: r in rates[..n] ==> r in rates;
      }
    }
  }

  lemma DimensionIsStable(rates: seq<Rate>, others: seq<Rate>)
    requires OneDimension(rates) && OneDimension(others) && SameRates(rates, others)
    ensures Dimension(rates) == Dimension(others)
  {
    if Dimension(rates) != "" {
      DimensionIsCommon(rates, Dimension(rates));
      DimensionIsCommon(others, Dimension(rates));
    }
    if Dimension(others) != "" {
      DimensionIsCommon(rates, Dimension(others));
      DimensionIsCommon(others, Dimension(others));
    }
  }

  /** However the rates of a pricing are ordered, the same rate makes the same feature, under the same key. */
  lemma RateOrderIrrelevant(env: Env, slug: string, rates: seq<Rate>, others: seq<Rate>, i: nat, j: nat)
    requires Partition(rates) && Partition(others) && SameRates(rates, others)
    requires i < |rates| && j < |others| && rates[i] == others[j]
    ensures UsageFeature(env, slug, RateFilter(rates, i)) == UsageFeature(env, slug, RateFilter(others, j))
  {
    DimensionIsStable(rates, others);
    SortedIsStable(rates, others);
  }
}
