/**
 What the compiled filters select. A usage pricing prices an event with the first rate that matches it, or with
 the unmatched rate; the compiled features are evaluated independently of each other.
 */
module OfferSelection {
  import opened Common
  import opened OfferMapping
  import opened GroupBy
  import OfferBuilder

  predicate Matches(rate: Rate, ev: Event) {
    rate.on.Some? && DimensionValue(ev, rate.on.value.dimension) == rate.on.value.value
  }

  /** The first of the first n rates that matches ev. */
  function FirstMatch(rates: seq<Rate>, ev: Event, n: nat): (r: Option<nat>)
    requires n <= |rates|
    ensures r.Some? ==> r.value < n && Matches(rates[r.value], ev)
    ensures forall k :: 0 <= k < (if r.Some? then r.value else n) ==> !Matches(rates[k], ev)
  {
    if n == 0 then None
    else
      var before := FirstMatch(rates, ev, n - 1);
      if before.Some? then before else if Matches(rates[n - 1], ev) then Some(n - 1) else None
  }

  /** The first of the first n rates that has no match. */
  function CatchAll(rates: seq<Rate>, n: nat): (r: Option<nat>)
    requires n <= |rates|
    ensures r.Some? ==> r.value < n && rates[r.value].on.None?
    ensures forall k :: 0 <= k < (if r.Some? then r.value else n) ==> rates[k].on.Some?
  {
    if n == 0 then None
    else
      var before := CatchAll(rates, n - 1);
      if before.Some? then before else if rates[n - 1].on.None? then Some(n - 1) else None
  }

  /** The pricing rule itself: the rate that prices ev. */
  function RuleFor(rates: seq<Rate>, ev: Event): (r: Option<nat>)
    ensures r.Some? ==> r.value < |rates|
  {
    var first := FirstMatch(rates, ev, |rates|);
    if first.Some? then first else CatchAll(rates, |rates|)
  }

  ghost predicate PathsOk(groupBy: map<string, string>) {
    forall k :: k in groupBy ==> DATA_PREFIX <= groupBy[k]
  }

  /** What a feature counts. */
  predicate Selects(groupBy: map<string, string>, filter: Option<Filter>, ev: Event)
    requires PathsOk(groupBy)
  {
    match filter
    case None => true
    case Some(Eq(key, value)) => GroupValue(groupBy, key, ev) == value
    case Some(Nin(key, values)) => GroupValue(groupBy, key, ev) !in values
  }

  /** The card of rate i counts exactly the events rate i prices. */
  ghost predicate SelectsOwn(rates: seq<Rate>, groupBy: map<string, string>)
    requires PathsOk(groupBy)
  {
    forall i, ev :: 0 <= i < |rates| ==> (Selects(groupBy, RateFilter(rates, i), ev) <==> RuleFor(rates, ev) == Some(i))
  }

  /** No match names the empty dimension, and the dimension's group-by key is not a reserved name. */
  ghost predicate WellRead(rates: seq<Rate>) {
    && (forall i :: 0 <= i < |rates| && rates[i].on.Some? ==> rates[i].on.value.dimension != "")
    && (MatchedValues(rates) != [] ==> GroupByKey(Dimension(rates)) !in RESERVED)
  }

  /** The meter's group-by covers the dimension the rates match on. */
  ghost predicate Metered(rates: seq<Rate>, dimensions: set<string>, groupBy: map<string, string>) {
    && Groupable(dimensions) && Groups(groupBy, dimensions) && PathsOk(groupBy)
    && (Dimension(rates) == "" || Dimension(rates) in dimensions)
  }

  lemma GroupsPaths(groupBy: map<string, string>, dimensions: set<string>)
    requires Groups(groupBy, dimensions)
    ensures PathsOk(groupBy)
  {
    forall k | k in groupBy ensures DATA_PREFIX <= groupBy[k] {
      var d :| d in dimensions && GroupByKey(d) == k;
      assert DimensionJSONPath(d) == Some(groupBy[k]);
    }
  }

  lemma OneDimensionHere(rates: seq<Rate>, i: nat)
    requires OneDimension(rates) && i < |rates| && rates[i].on.Some?
    ensures rates[i].on.value.dimension == "" || rates[i].on.value.dimension == Dimension(rates)
    ensures rates[i].on.value.value in MatchedValues(rates)
  {
    var last := OfferBuilder.LastMatch(rates);
  }

  /** What the card of a rate counts, given what OpenMeter reads for the shared key. */
  predicate Counts(rate: Rate, matched: seq<string>, seen: string) {
    if rate.on.Some? then seen == rate.on.value.value else seen !in matched
  }

  function Seen(rates: seq<Rate>, groupBy: map<string, string>, ev: Event): string
    requires PathsOk(groupBy)
  {
    GroupValue(groupBy, GroupByKey(Dimension(rates)), ev)
  }

  lemma SelectsCounts(rates: seq<Rate>, groupBy: map<string, string>, ev: Event, i: nat)
    requires PathsOk(groupBy) && i < |rates|
    ensures Selects(groupBy, RateFilter(rates, i), ev) <==>
            Counts(rates[i], MatchedValues(rates), Seen(rates, groupBy, ev))
  {
  }

  lemma CountsUnique(rates: seq<Rate>, matched: seq<string>, seen: string, i: nat, j: nat)
    requires Partition(rates) && matched == MatchedValues(rates) && i < j < |rates|
    ensures !(Counts(rates[i], matched, seen) && Counts(rates[j], matched, seen))
  {
    assert rates[i].on.Some? || rates[j].on.Some?;
    assert rates[i].on.Some? ==> rates[i].on.value.value in matched;
    assert rates[j].on.Some? ==> rates[j].on.value.value in matched;
  }

  lemma CountedOnce(rates: seq<Rate>, matched: seq<string>, seen: string, i: nat, j: nat)
    requires Partition(rates) && matched == MatchedValues(rates) && i < |rates| && j < |rates|
    requires Counts(rates[i], matched, seen) && Counts(rates[j], matched, seen)
    ensures i == j
  {
    if i < j {
      CountsUnique(rates, matched, seen, i, j);
    } else if j < i {
      CountsUnique(rates, matched, seen, j, i);
    }
  }

  /** The filters use one key and different values, so no event is counted by two cards. */
  lemma CardsExclusive(rates: seq<Rate>, groupBy: map<string, string>, ev: Event, i: nat, j: nat)
    requires Partition(rates) && PathsOk(groupBy) && i < j < |rates|
    ensures !(Selects(groupBy, RateFilter(rates, i), ev) && Selects(groupBy, RateFilter(rates, j), ev))
  {
    SelectsCounts(rates, groupBy, ev, i);
    SelectsCounts(rates, groupBy, ev, j);
    CountsUnique(rates, MatchedValues(rates), Seen(rates, groupBy, ev), i, j);
  }

  /** The card that counts an event: the one whose value it has, or the catch-all. */
  lemma CountsSome(rates: seq<Rate>, matched: seq<string>, seen: string) returns (i: int)
    requires matched == MatchedValues(rates) && (seen in matched || CatchAll(rates, |rates|).Some?)
    ensures 0 <= i < |rates| && Counts(rates[i], matched, seen)
  {
    if seen in matched {
      i :| 0 <= i < |rates| && rates[i].on.Some? && rates[i].on.value.value == seen;
    } else {
      i := CatchAll(rates, |rates|).value;
    }
  }

  lemma CardThatCounts(rates: seq<Rate>, groupBy: map<string, string>, ev: Event) returns (i: nat)
    requires PathsOk(groupBy)
    requires CatchAll(rates, |rates|).Some? || Seen(rates, groupBy, ev) in MatchedValues(rates)
    ensures i < |rates| && Selects(groupBy, RateFilter(rates, i), ev)
  {
    i := CountsSome(rates, MatchedValues(rates), Seen(rates, groupBy, ev));
    SelectsCounts(rates, groupBy, ev, i);
  }

  ghost predicate Counted(rates: seq<Rate>, groupBy: map<string, string>, ev: Event)
    requires PathsOk(groupBy)
  {
    exists i :: 0 <= i < |rates| && Selects(groupBy, RateFilter(rates, i), ev)
  }

  lemma CountedCard(rates: seq<Rate>, groupBy: map<string, string>, ev: Event, i: nat)
    requires PathsOk(groupBy) && i < |rates| && Selects(groupBy, RateFilter(rates, i), ev)
    ensures CatchAll(rates, |rates|).Some? || Seen(rates, groupBy, ev) in MatchedValues(rates)
  {
    SelectsCounts(rates, groupBy, ev, i);
  }

  /** With a catch-all every event is counted by some card; without, only the matched values are. */
  lemma CardsCover(rates: seq<Rate>, groupBy: map<string, string>, ev: Event)
    requires Partition(rates) && PathsOk(groupBy)
    ensures Counted(rates, groupBy, ev) <==>
      CatchAll(rates, |rates|).Some? || Seen(rates, groupBy, ev) in MatchedValues(rates)
  {
    if CatchAll(rates, |rates|).Some? || Seen(rates, groupBy, ev) in MatchedValues(rates) {
      var i := CardThatCounts(rates, groupBy, ev);
    }
    if Counted(rates, groupBy, ev) {
      var i :| 0 <= i < |rates| && Selects(groupBy, RateFilter(rates, i), ev);
      CountedCard(rates, groupBy, ev, i);
    }
  }

  lemma RuleCounts(rates: seq<Rate>, matched: seq<string>, d: string, ev: Event, i: nat)
    requires Partition(rates) && matched == MatchedValues(rates) && i < |rates|
    requires forall k :: 0 <= k < |rates| && rates[k].on.Some? ==> rates[k].on.value.dimension == d
    ensures RuleFor(rates, ev) == Some(i) <==> Counts(rates[i], matched, DimensionValue(ev, d))
  {
    var seen, rule := DimensionValue(ev, d), RuleFor(rates, ev);
    if rule.Some? {
      RuleIsCounted(rates, matched, d, ev);
      if Counts(rates[i], matched, seen) {
        CountedOnce(rates, matched, seen, i, rule.value);
      }
    } else {
      assert rates[i].on.Some? && !Matches(rates[i], ev);
    }
  }

  lemma RuleIsCounted(rates: seq<Rate>, matched: seq<string>, d: string, ev: Event)
    requires matched == MatchedValues(rates) && RuleFor(rates, ev).Some?
    requires forall k :: 0 <= k < |rates| && rates[k].on.Some? ==> rates[k].on.value.dimension == d
    ensures Counts(rates[RuleFor(rates, ev).value], matched, DimensionValue(ev, d))
  {
  }

  lemma WellReadSelectsOwn(rates: seq<Rate>, dimensions: set<string>, groupBy: map<string, string>, i: nat, ev: Event)
    requires Partition(rates) && Metered(rates, dimensions, groupBy) && WellRead(rates) && i < |rates|
    ensures Selects(groupBy, RateFilter(rates, i), ev) <==> RuleFor(rates, ev) == Some(i)
  {
    var d, matched := Dimension(rates), MatchedValues(rates);
    SelectsCounts(rates, groupBy, ev, i);
    forall k | 0 <= k < |rates| && rates[k].on.Some? ensures rates[k].on.value.dimension == d && d != "" {
      OneDimensionHere(rates, k);
    }
    RuleCounts(rates, matched, d, ev, i);
    if matched != [] {
      assert matched[0] in matched;
      KeyReadsDimension(groupBy, dimensions, d, ev);
    }
  }

  lemma ReadsNothing(dimensions: set<string>, groupBy: map<string, string>, key: string, ev: Event)
    requires Groupable(dimensions) && Groups(groupBy, dimensions) && PathsOk(groupBy)
    requires ev.subject == "" && ev.customerId == "" && ev.dimensions.Keys == {""}
    ensures GroupValue(groupBy, key, ev) == ""
  {
    if key in groupBy {
      var d :| d in dimensions && GroupByKey(d) == key;
      assert d != "" && Member(groupBy[key]) == Some(d);
    }
  }

  /** A match on the empty dimension is read from another place. */
  lemma EmptyDimensionMisreads(rates: seq<Rate>, dimensions: set<string>, groupBy: map<string, string>, i: nat)
    returns (ev: Event)
    requires Partition(rates) && Metered(rates, dimensions, groupBy)
    requires i < |rates| && rates[i].on.Some? && rates[i].on.value.dimension == ""
    ensures Selects(groupBy, RateFilter(rates, i), ev) <==> RuleFor(rates, ev) != Some(i)
  {
    var v := rates[i].on.value.value;
    ev := Event("", "", "", map["" := if v == "" then "x" else v], 0.0);
    var key := GroupByKey(Dimension(rates));
    ReadsNothing(dimensions, groupBy, key, ev);
    SelectsCounts(rates, groupBy, ev, i);
    if v != "" {
      FirstIsRule(rates, ev, i);
    }
  }

  lemma FirstIsRule(rates: seq<Rate>, ev: Event, i: nat)
    requires OneDimension(rates) && DistinctValues(rates) && i < |rates| && Matches(rates[i], ev)
    requires forall k :: 0 <= k < i && rates[k].on.Some? ==> rates[k].on.value.dimension == rates[i].on.value.dimension
    ensures RuleFor(rates, ev) == Some(i)
  {
    forall k | 0 <= k < i ensures !Matches(rates[k], ev) {
    }
  }

  lemma ReservedMisreads(rates: seq<Rate>, groupBy: map<string, string>) returns (i: nat, ev: Event)
    requires Partition(rates) && PathsOk(groupBy)
    requires forall k :: 0 <= k < |rates| && rates[k].on.Some? ==> rates[k].on.value.dimension != ""
    requires MatchedValues(rates) != [] && GroupByKey(Dimension(rates)) in RESERVED
    ensures i < |rates| && RuleFor(rates, ev) == Some(i) && !Selects(groupBy, RateFilter(rates, i), ev)
  {
    var v := MatchedValues(rates)[0];
    assert v in MatchedValues(rates);
    i :| 0 <= i < |rates| && rates[i].on.Some? && rates[i].on.value.value == v;
    forall k | 0 <= k < |rates| && rates[k].on.Some? ensures rates[k].on.value.dimension == Dimension(rates) {
      OneDimensionHere(rates, k);
    }
    ev := ReservedKeyMisreads(groupBy, Dimension(rates), v);
    SelectsCounts(rates, groupBy, ev, i);
    FirstIsRule(rates, ev, i);
  }

  /** Filters on the group-by key select exactly what the match rules say if and only if the pricing is well read. */
  lemma SelectionExactly(rates: seq<Rate>, dimensions: set<string>, groupBy: map<string, string>)
    requires Partition(rates) && Metered(rates, dimensions, groupBy)
    ensures SelectsOwn(rates, groupBy) <==> WellRead(rates)
  {
    if WellRead(rates) {
      forall i, ev | 0 <= i < |rates|
        ensures Selects(groupBy, RateFilter(rates, i), ev) <==> RuleFor(rates, ev) == Some(i)
      {
        WellReadSelectsOwn(rates, dimensions, groupBy, i, ev);
      }
    } else if i :| 0 <= i < |rates| && rates[i].on.Some? && rates[i].on.value.dimension == "" {
      var ev := EmptyDimensionMisreads(rates, dimensions, groupBy, i);
    } else {
      var i, ev := ReservedMisreads(rates, groupBy);
    }
  }
}
