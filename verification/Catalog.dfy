/**
 Features and meters behind plans. Offer sync creates features before the plan that references them; Offer deletion and
 meter finalization archive only what no plan version references. Operations run one after the other; each may be cut
 after any call that changes something.
 */
module Catalog {
  import opened Common
  import opened Plans

  datatype Feature = Feature(key: string, meter: string, filter: string, archived: bool)

  datatype DesiredFeature = DesiredFeature(key: string, meter: string, filter: string)

  /** A feature some listed version's rate cards point at. */
  ghost predicate Referenced(plans: map<string, seq<Version>>, id: nat) {
    exists key, i :: key in plans && 0 <= i < |plans[key]| && Listed(plans[key][i]) && id in plans[key][i].features
  }

  predicate ActiveFeature(features: map<nat, Feature>, id: nat) {
    id in features && !features[id].archived
  }

  /** Every listed version of one plan references only active features. */
  ghost predicate Backed(vs: seq<Version>, features: map<nat, Feature>) {
    forall i, id :: 0 <= i < |vs| && Listed(vs[i]) && id in vs[i].features ==> ActiveFeature(features, id)
  }

  /** The spec hash: of a plan's content and of the features it references. */
  type Digest = (string, set<nat>) -> string

  ghost predicate Injective(digest: Digest) {
    forall c, f, c', f' {:trigger digest(c, f), digest(c', f')} :: digest(c, f) == digest(c', f') ==> c == c' && f == f'
  }

  /** Every version carries the hash of what it holds. */
  ghost predicate Tagged(vs: seq<Version>, digest: Digest) {
    forall i :: 0 <= i < |vs| ==> vs[i].hash == digest(vs[i].content, vs[i].features)
  }

  lemma {:induction false} CallsTagged(vs: seq<Version>, d: Desired, n: nat, digest: Digest)
    requires Tagged(vs, digest) && d.hash == digest(d.content, d.features)
    ensures Tagged(Calls(vs, d, n), digest)
  {
    if n > 0 {
      CallsTagged(vs, d, n - 1, digest);
    }
  }

  /** Active features sit on existing meters and have distinct keys. */
  ghost predicate FeaturesOk(features: map<nat, Feature>, meters: map<string, string>, nextId: nat) {
    && (forall id :: id in features ==> id < nextId && (!features[id].archived ==> features[id].meter in meters))
    && (forall id, other :: ActiveFeature(features, id) && ActiveFeature(features, other) && id != other ==>
          features[id].key != features[other].key)
  }

  lemma {:induction false} CallsBacked(vs: seq<Version>, d: Desired, n: nat, features: map<nat, Feature>)
    requires Backed(vs, features) && forall id :: id in d.features ==> ActiveFeature(features, id)
    ensures Backed(Calls(vs, d, n), features)
  {
    if n > 0 {
      CallsBacked(vs, d, n - 1, features);
      OneCallBacked(Calls(vs, d, n - 1), d, features);
    }
  }

  lemma BackedGrows(vs: seq<Version>, features: map<nat, Feature>, more: map<nat, Feature>)
    requires Backed(vs, features) && forall id :: ActiveFeature(features, id) ==> ActiveFeature(more, id)
    ensures Backed(vs, more)
  {
  }

  lemma OneCallBacked(vs: seq<Version>, d: Desired, features: map<nat, Feature>)
    requires Backed(vs, features) && forall id :: id in d.features ==> ActiveFeature(features, id)
    ensures Backed(OneCall(vs, d), features)
  {
  }

  /** One call short of done, the latest version is a draft of the desired plan, to be published. */
  lemma DraftReady(start: seq<Version>, d: Desired, made: nat)
    requires PlanOk(start) && Needed(start, d) == made + 1
    ensures var vs := Calls(start, d, made);
      Latest(vs) >= 0 && Calls(start, d, made + 1) == PublishedAt(vs, Latest(vs))
  {
    CallsConverge(start, d, made);
  }

  lemma NeededZero(vs: seq<Version>, d: Desired)
    ensures Needed(vs, d) == 0 <==> Settled(vs, d)
  {
  }

  lemma OneCallIsFirst(vs: seq<Version>, d: Desired)
    ensures Calls(vs, d, 1) == OneCall(vs, d)
  {
    assert Calls(vs, d, 0) == vs;
  }

  class Store {
    var plans: map<string, seq<Version>>
    var features: map<nat, Feature>
    /** The event type of each meter, by slug. */
    var meters: map<string, string>
    var nextId: nat
    /** How many more changes are carried out before the process stops. */
    var budget: nat
    const digest: Digest

    ghost predicate Valid()
      reads this
    {
      && (forall key :: key in plans ==>
            PlanOk(plans[key]) && Backed(plans[key], features) && Tagged(plans[key], digest))
      && FeaturesOk(features, meters, nextId)
    }

    constructor (digest: Digest)
      ensures Valid() && plans == map[] && features == map[] && meters == map[] && this.digest == digest
    {
      this.digest := digest;
      plans, features, meters, nextId, budget := map[], map[], map[], 0, 0;
    }

    function Versions(key: string): seq<Version>
      reads this
    {
      VersionsOf(plans, key)
    }

    /** EnsureFeature. */
    method EnsureFeature(f: DesiredFeature) returns (r: Option<nat>)
      requires Valid()
      modifies this`features, this`nextId, this`budget
      ensures Valid() && (r.Some? ==> IsFor(features, r.value, f))
      ensures r.Some? <==>
        Fits(old(features), f) && (HasKey(old(features), f.key) || (f.meter in meters && old(budget) > 0))
      ensures r.Some? ==> Adds(old(features), features, f, old(nextId))
      ensures r.None? ==> features == old(features)
      ensures budget == old(budget) - if r.Some? && !HasKey(old(features), f.key) then 1 else 0
    {
      if f.key == "" || f.meter == "" {
        return None;
      }
      if id :| id in features && !features[id].archived && features[id].key == f.key {
        if features[id].meter != f.meter || features[id].filter != f.filter {
          return None;
        }
        return Some(id);
      }
      if f.meter !in meters || budget == 0 {
        return None;
      }
      r := Some(nextId);
      AddFeature(f);
    }

    method AddFeature(f: DesiredFeature)
      requires Valid() && budget > 0 && !HasKey(features, f.key) && f.meter in meters
      modifies this`features, this`nextId, this`budget
      ensures Valid() && features == old(features)[old(nextId) := Feature(f.key, f.meter, f.filter, false)]
      ensures nextId == old(nextId) + 1 && budget == old(budget) - 1
    {
      var more := features[nextId := Feature(f.key, f.meter, f.filter, false)];
      forall key | key in plans ensures Backed(plans[key], more) {
        BackedGrows(plans[key], features, more);
      }
      budget, features, nextId := budget - 1, more, nextId + 1;
    }

    /** EnsurePlan. */
    method EnsurePlan(key: string, d: Desired) returns (ok: bool)
      requires Valid() && forall id :: id in d.features ==> ActiveFeature(features, id)
      requires d.hash == digest(d.content, d.features)
      modifies this`plans, this`budget
      ensures Valid() && ok == (old(budget) >= Needed(old(Versions(key)), d))
      ensures Versions(key) == Ensured(old(Versions(key)), d, old(budget))
      ensures OnlyPlan(old(plans), plans, key)
    {
      NeededZero(Versions(key), d);
      if Settled(Versions(key), d) {
        return true;
      }
      ghost var start := Versions(key);
      var ready := PrepareDraft(key, d);
      if !ready || budget == 0 {
        return false;
      }
      ghost var between := plans;
      PublishDraft(key, start, d);
      OnlyPlanTwice(old(plans), between, plans, key);
      ok := true;
    }

    /** The second half of EnsurePlan. */
    method PublishDraft(key: string, ghost start: seq<Version>, d: Desired)
      requires Valid() && (forall id :: id in d.features ==> ActiveFeature(features, id)) && budget > 0
      requires d.hash == digest(d.content, d.features) && Needed(start, d) > 0
      requires PlanOk(start) && Backed(start, features) && Tagged(start, digest)
      requires Versions(key) == Calls(start, d, Needed(start, d) - 1)
      modifies this`plans, this`budget
      ensures Valid() && plans == old(plans)[key := Calls(start, d, Needed(start, d))]
    {
      var vs := Versions(key);
      DraftReady(start, d, Needed(start, d) - 1);
      Write(key, start, PublishedAt(vs, Latest(vs)), d, Needed(start, d));
    }

    /** The first half of EnsurePlan: the latest version becomes a draft of the desired plan, unless it is one. */
    method PrepareDraft(key: string, d: Desired) returns (ready: bool)
      requires Valid() && forall id :: id in d.features ==> ActiveFeature(features, id)
      requires d.hash == digest(d.content, d.features) && Needed(Versions(key), d) > 0
      modifies this`plans, this`budget
      ensures Valid() && ready == (old(budget) >= Needed(old(Versions(key)), d) - 1)
      ensures ready ==> Versions(key) == Calls(old(Versions(key)), d, Needed(old(Versions(key)), d) - 1)
      ensures ready ==> budget == old(budget) - (Needed(old(Versions(key)), d) - 1)
      ensures !ready ==> plans == old(plans)
      ensures OnlyPlan(old(plans), plans, key)
    {
      var vs := Versions(key);
      var i := Latest(vs);
      if i >= 0 && vs[i].status.Draft? && vs[i].hash == d.hash {
        return true;
      }
      if budget == 0 {
        return false;
      }
      OneCallIsFirst(vs, d);
      Write(key, vs, if i < 0 || !vs[i].status.Draft? then Created(vs, d) else Updated(vs, i, d), d, 1);
      ready := true;
    }

    /** One write of a plan's versions, which is the n-th call from start. */
    method Write(key: string, ghost start: seq<Version>, next: seq<Version>, ghost d: Desired, ghost n: nat)
      requires Valid() && budget > 0 && next == Calls(start, d, n) && PlanOk(start) && Backed(start, features)
      requires Tagged(start, digest) && d.hash == digest(d.content, d.features)
      requires forall id :: id in d.features ==> ActiveFeature(features, id)
      modifies this`plans, this`budget
      ensures Valid() && plans == old(plans)[key := next] && budget == old(budget) - 1
    {
      CallsConverge(start, d, n);
      CallsBacked(start, d, n, features);
      CallsTagged(start, d, n, digest);
      plans := plans[key := next];
      budget := budget - 1;
    }

    /** DeletePlan of version i: an active version is archived first. OpenMeter may refuse the deletion for good. */
    method DeletePlan(key: string, i: nat, refused: bool) returns (outcome: Outcome)
      requires Valid() && key in plans && i < |plans[key]|
      modifies this`plans, this`budget
      ensures Valid() && key in plans && OnlyPlan(old(plans), plans, key)
      ensures exists status :: plans[key] == Marked(old(plans)[key], i, status)
      ensures outcome.Stopped? <==> old(budget) < DeletesOf(old(plans)[key][i], refused)
      ensures !outcome.Stopped? ==>
        && budget == old(budget) - DeletesOf(old(plans)[key][i], refused)
        && plans[key] == Marked(old(plans)[key], i, Removed(old(plans)[key][i], refused).status)
      ensures outcome.RefusedForGood? ==> refused
    {
      MarkedSame(plans[key], i);
      if !Listed(plans[key][i]) {
        return Completed;
      }
      if plans[key][i].status.Active? {
        if budget == 0 {
          return Stopped;
        }
        Mark(key, i, Archived);
      }
      if refused {
        return RefusedForGood;
      }
      if budget == 0 {
        return Stopped;
      }
      MarkedTwice(old(plans)[key], i, plans[key][i].status, Deleted);
      Mark(key, i, Deleted);
      outcome := Completed;
    }

    method Mark(key: string, i: nat, status: Status)
      requires Valid() && key in plans && i < |plans[key]| && budget > 0
      requires status.Deleted? || (status.Archived? && plans[key][i].status.Active?)
      modifies this`plans, this`budget
      ensures Valid() && key in plans && OnlyPlan(old(plans), plans, key)
      ensures plans[key] == Marked(old(plans)[key], i, status) && budget == old(budget) - 1
    {
      var vs := Marked(plans[key], i, status);
      assert PlanOk(vs) && Backed(vs, features) by {
        assert forall k :: 0 <= k < |vs| && k != i ==> vs[k] == plans[key][k];
      }
      plans := plans[key := vs];
      budget := budget - 1;
    }

    /** referencedFeatureIDs: what the listed versions of all plans reference. */
    method ReferencedFeatureIDs() returns (refs: set<nat>)
      ensures forall id :: id in refs <==> Referenced(plans, id)
    {
      refs := {};
      var todo := plans.Keys;
      while todo != {}
        invariant todo <= plans.Keys
        invariant forall id :: id in refs <==> exists key :: key in plans.Keys - todo && ReferencedBy(plans[key], id)
        decreases |todo|
      {
        var key :| key in todo;
        var ids := FeatureIDsOf(plans[key]);
        refs := refs + ids;
        todo := todo - {key};
      }
      forall id ensures id in refs <==> Referenced(plans, id) {
        ReferencedSomewhere(plans, id);
      }
    }

    /** DeleteFeature of a feature nothing references. */
    method Archive(id: nat)
      requires Valid() && id in features && budget > 0 && !Referenced(plans, id)
      modifies this`features, this`budget
      ensures Valid() && features == old(features)[id := old(features)[id].(archived := true)]
      ensures budget == old(budget) - 1
    {
      var next := features[id := features[id].(archived := true)];
      forall key | key in plans ensures Backed(plans[key], next) {
        BackedWithout(plans, key, features, id);
      }
      features := next;
      budget := budget - 1;
    }

    /**
     ArchiveFeaturesIfUnreferenced: only unreferenced candidates are archived; all of them, unless the process stops or
     OpenMeter refuses a call for good.
     */
    method ArchiveFeaturesIfUnreferenced(candidates: seq<nat>, refusals: Refusals) returns (outcome: Outcome)
      requires Valid()
      modifies this`features, this`budget
      ensures Valid() && Archives(plans, old(features), features, candidates)
      ensures ArchiveOutcome(plans, old(features), features, candidates, refusals, old(budget), budget, outcome)
    {
      if |candidates| == 0 {
        return Completed;
      }
      if refusals.listing {
        return RefusedForGood;
      }
      var refs := ReferencedFeatureIDs();
      ghost var start, have := features, budget;
      for k := 0 to |candidates|
        invariant Valid() && Archives(plans, start, features, candidates)
        invariant Archiving(plans, start, features, candidates, refusals, k, have - budget)
      {
        ghost var before, spent := features, have - budget;
        outcome := ArchiveCandidate(candidates[k], refs, refusals);
        if !outcome.Completed? {
          ArchivingEnds(plans, start, features, candidates, refusals, k, spent, have, outcome);
          return;
        }
        ArchivingNext(plans, start, before, features, candidates, refusals, k, spent);
      }
      outcome := Completed;
      ArchivingDone(plans, start, features, candidates, refusals, have, budget);
    }

    /** One turn of the loop. */
    method ArchiveCandidate(id: nat, refs: set<nat>, refusals: Refusals) returns (outcome: Outcome)
      requires Valid() && (id in refs <==> Referenced(plans, id))
      modifies this`features, this`budget
      ensures Valid() && outcome ==
        if !Due(plans, old(features), id) then Completed
        else if refusals.archive(id) then RefusedForGood
        else if old(budget) == 0 then Stopped
        else Completed
      ensures features == if Due(plans, old(features), id) && outcome.Completed?
                          then old(features)[id := old(features)[id].(archived := true)] else old(features)
      ensures budget == old(budget) - if Due(plans, old(features), id) && outcome.Completed? then 1 else 0
    {
      if id in refs || id !in features {
        return Completed;
      }
      if refusals.archive(id) {
        return RefusedForGood;
      }
      if budget == 0 {
        return Stopped;
      }
      Archive(id);
      outcome := Completed;
    }

    /** ListFeatures: the meter's active features, in some order. */
    method ListFeatures(slug: string) returns (ids: seq<nat>)
      ensures forall id :: id in ids <==> id in OnMeter(features, slug)
      ensures |ids| == |OnMeter(features, slug)|
    {
      ids := InSomeOrder(OnMeter(features, slug));
    }

    /** ArchiveUnreferencedMeterFeatures. */
    method ArchiveUnreferencedMeterFeatures(slug: string, refusals: Refusals) returns (outcome: Outcome)
      requires Valid()
      modifies this`features, this`budget
      ensures Valid() && MeterArchives(plans, old(features), features, slug)
      ensures outcome.Completed? ==>
        forall id :: ActiveFeature(features, id) && features[id].meter == slug ==> Referenced(plans, id)
      ensures Disused(plans, old(features), slug) ==>
        && (outcome.Completed? <==>
              Archivable(old(features), slug, refusals) && |OnMeter(old(features), slug)| <= old(budget))
        && (outcome.Completed? ==> budget == old(budget) - |OnMeter(old(features), slug)|)
    {
      var ids := ListFeatures(slug);
      outcome := ArchiveFeaturesIfUnreferenced(ids, refusals);
      if Disused(plans, old(features), slug) {
        AllDue(plans, old(features), ids, |ids|);
      }
    }

    /** The loop over the Offer's features. */
    method EnsureFeatures(wanted: seq<DesiredFeature>) returns (ok: bool, ids: seq<nat>)
      requires Valid() && forall k :: 0 <= k < |wanted| ==> wanted[k].meter in meters
      modifies this`features, this`nextId, this`budget
      ensures Valid() && Grown(old(features), features, wanted, |ids|)
      ensures ok <==>
        AllFit(old(features), wanted, |wanted|) && |Missing(old(features), wanted, |wanted|)| <= old(budget)
      ensures ok ==> |ids| == |wanted| && budget == old(budget) - |Missing(old(features), wanted, |wanted|)|
      ensures Realizes(ids, features, wanted)
    {
      ids := [];
      for k := 0 to |wanted|
        invariant Valid() && |ids| == k && Realizes(ids, features, wanted)
        invariant Ensuring(old(features), features, wanted, k, old(budget) - budget)
      {
        ghost var before, next, spent := features, nextId, old(budget) - budget;
        var r := EnsureFeature(wanted[k]);
        if r.None? {
          NotEnsured(old(features), before, wanted, ids, spent, old(budget));
          return false, ids;
        }
        EnsuredOne(old(features), before, features, wanted, ids, r.value, next, spent);
        ids := ids + [r.value];
      }
      ok := true;
    }

    /** The Offer's features, in order, then its plan; content is everything else the plan holds. */
    method SyncOffer(key: string, wanted: seq<DesiredFeature>, content: string) returns (ok: bool, ids: seq<nat>)
      requires Valid()
      modifies this`plans, this`features, this`nextId, this`budget
      ensures Valid() && FeaturesSynced(old(features), features, meters, wanted, old(budget), ids)
      ensures PlanSynced(old(plans), plans, key, DesiredPlan(digest, content, ids),
                         TimeLeft(old(features), meters, wanted, old(budget)), ok)
      ensures ok ==> Publishes(Versions(key), digest, content, SetOf(ids))
    {
      ok, ids := PrepareFeatures(wanted);
      if ok {
        ok := PublishPlan(key, content, ids);
      }
    }

    method PublishPlan(key: string, content: string, ids: seq<nat>) returns (ok: bool)
      requires Valid() && forall id :: id in SetOf(ids) ==> ActiveFeature(features, id)
      modifies this`plans, this`budget
      ensures Valid() && PlanSynced(old(plans), plans, key, DesiredPlan(digest, content, ids), Some(old(budget)), ok)
      ensures ok ==> Publishes(Versions(key), digest, content, SetOf(ids))
    {
      ghost var before, have := Versions(key), budget;
      ok := EnsurePlan(key, DesiredPlan(digest, content, ids));
      if ok {
        EnsuredPublishes(before, have, Versions(key), digest, content, ids);
      }
    }

    /** The meters, then the features. */
    method PrepareFeatures(wanted: seq<DesiredFeature>) returns (ok: bool, ids: seq<nat>)
      requires Valid()
      modifies this`features, this`nextId, this`budget
      ensures Valid() && FeaturesSynced(old(features), features, meters, wanted, old(budget), ids)
      ensures TimeLeft(old(features), meters, wanted, old(budget)) == if ok then Some(budget) else None
      ensures ok ==> forall id :: id in SetOf(ids) ==> ActiveFeature(features, id)
    {
      for k := 0 to |wanted|
        invariant forall j :: 0 <= j < k ==> wanted[j].meter in meters
      {
        if wanted[k].meter !in meters {
          return false, [];
        }
      }
      ok, ids := EnsureFeatures(wanted);
    }

    /** The meter finalizer; OpenMeter refuses to delete a meter that has active features. */
    method FinalizeMeter(slug: string, meterName: string, refusals: Refusals) returns (released: bool)
      requires Valid()
      modifies this`features, this`meters, this`budget
      ensures Valid() && MeterArchives(plans, old(features), features, slug)
      ensures released <==> Finalizable(plans, old(features), old(meters), slug, meterName, refusals, old(budget))
      ensures meters == if released && Owns(old(meters), slug, meterName) then old(meters) - {slug} else old(meters)
      ensures meters != old(meters) ==>
        forall id :: Referenced(plans, id) && id in features ==> features[id].meter != slug
    {
      if slug !in meters || meters[slug] != meterName {
        return true;
      }
      var outcome := ArchiveUnreferencedMeterFeatures(slug, refusals);
      if !outcome.Completed? {
        return false;
      }
      LeftExactly(plans, old(features), features, slug);
      if OnMeter(features, slug) != {} || budget == 0 {
        return false;
      }
      DeleteMeter(slug);
      released := true;
    }

    method DeleteMeter(slug: string)
      requires Valid() && budget > 0 && OnMeter(features, slug) == {}
      modifies this`meters, this`budget
      ensures Valid() && meters == old(meters) - {slug}
      ensures forall id :: Referenced(plans, id) && id in features ==> features[id].meter != slug
    {
      ReferencedActive(plans, features);
      forall id | ActiveFeature(features, id) ensures features[id].meter != slug {
        assert id !in OnMeter(features, slug);
      }
      budget, meters := budget - 1, meters - {slug};
    }

    /** The loop over the plan's versions. */
    method DeleteVersions(key: string, refused: nat -> bool) returns (ok: bool)
      requires Valid()
      modifies this`plans, this`budget
      ensures Valid() && VersionsDeleted(old(plans), plans, key, refused, old(budget), budget, ok)
    {
      if key !in plans {
        NothingToDelete(plans, key, refused, budget);
        return true;
      }
      ghost var start, have := plans, budget;
      WithdrawnNone(plans, key, refused);
      for i := 0 to |plans[key]|
        invariant Valid() && Withdrawing(start, plans, key, refused, i)
        invariant budget == have - DeletesIn(start[key], refused, i)
      {
        var went := DeleteNext(key, start, refused, i);
        if !went {
          CutShort(start, plans, key, refused, i, have, budget);
          return false;
        }
      }
      ok := true;
      WithdrawnAll(start, plans, key, refused, have, budget);
    }

    /** One turn of the loop: a version refused for good is left behind. */
    method DeleteNext(key: string, ghost start: map<string, seq<Version>>, refused: nat -> bool, i: nat)
      returns (went: bool)
      requires Valid() && Withdrawing(start, plans, key, refused, i) && i < |start[key]|
      modifies this`plans, this`budget
      ensures Valid() && OnlyStatuses(start, plans, key)
      ensures went <==> DeletesOf(start[key][i], refused(i)) <= old(budget)
      ensures went ==> Withdrawing(start, plans, key, refused, i + 1)
      ensures went ==> budget == old(budget) - DeletesOf(start[key][i], refused(i))
    {
      WithdrawnLater(start, plans, key, refused, i);
      var outcome := DeletePlan(key, i, refused(i));
      WithdrawnNext(start, old(plans), plans, key, refused, i);
      went := !outcome.Stopped?;
    }

    /**
     reconcileDelete: every listed version goes, unless refused for good, then the features only they referenced. When
     archiving is refused for good the Offer is released all the same and some of those features stay active.
     */
    method DeleteOffer(key: string, refused: nat -> bool, refusals: Refusals) returns (released: bool)
      requires Valid()
      modifies this`plans, this`features, this`budget
      ensures Valid() && OnlyStatuses(old(plans), plans, key)
      ensures FeaturesReleased(plans, old(features), features, old(Versions(key)))
      ensures Released(old(plans), plans, old(features), features, key, refused, refusals, old(budget), released)
    {
      ghost var vs := Versions(key);
      var ids := FeatureIDsOf(Versions(key));
      var order := InSomeOrder(ids);
      var ok := DeleteVersions(key, refused);
      if !ok {
        return false;
      }
      released := ReleaseFeatures(vs, order, refusals);
    }

    /** The end of reconcileDelete: archive what the versions referenced; a permanent refusal is only reported. */
    method ReleaseFeatures(ghost vs: seq<Version>, order: seq<nat>, refusals: Refusals) returns (released: bool)
      requires Valid() && NoRepeats(order) && forall id :: id in order <==> ReferencedBy(vs, id)
      modifies this`features, this`budget
      ensures Valid() && Archives(plans, old(features), features, order)
      ensures |DueSet(plans, old(features), vs)| <= old(budget) ==> released
      ensures released && Compliant(refusals, vs) ==>
        && |DueSet(plans, old(features), vs)| <= old(budget)
        && forall id :: id in DueSet(plans, old(features), vs) ==> features[id].archived
    {
      DueCounted(plans, features, order, vs);
      assert Compliant(refusals, vs) ==> Unrefused(plans, features, order, refusals);
      var outcome := ArchiveFeaturesIfUnreferenced(order, refusals);
      released := !outcome.Stopped?;
    }
  }

  /** What OpenMeter refuses for good while features are archived: listing the plans, or archiving a feature. */
  datatype Refusals = Refusals(listing: bool, archive: nat -> bool)

  datatype Outcome = Completed | Stopped | RefusedForGood

  // ---- Archiving ----

  /** A feature that exists and that nothing references. */
  ghost predicate Due(plans: map<string, seq<Version>>, features: map<nat, Feature>, id: nat) {
    id in features && !Referenced(plans, id)
  }

  /** How many archive calls the first n candidates take. */
  ghost function DueCalls(plans: map<string, seq<Version>>, features: map<nat, Feature>, candidates: seq<nat>, n: nat)
    : nat
    requires n <= |candidates|
  {
    if n == 0 then 0
    else DueCalls(plans, features, candidates, n - 1) + if Due(plans, features, candidates[n - 1]) then 1 else 0
  }

  lemma {:induction false} DueCallsGrow(plans: map<string, seq<Version>>, features: map<nat, Feature>,
                                        candidates: seq<nat>, n: nat, m: nat)
    requires n <= m <= |candidates|
    ensures DueCalls(plans, features, candidates, n) <= DueCalls(plans, features, candidates, m)
  {
    if n < m {
      DueCallsGrow(plans, features, candidates, n, m - 1);
    }
  }

  lemma {:induction false} AllDue(plans: map<string, seq<Version>>, features: map<nat, Feature>, candidates: seq<nat>,
                                  n: nat)
    requires n <= |candidates| && forall id :: id in candidates ==> Due(plans, features, id)
    ensures DueCalls(plans, features, candidates, n) == n
  {
    if n > 0 {
      AllDue(plans, features, candidates, n - 1);
    }
  }

  /** Only candidates that nothing references are archived. */
  ghost predicate Archives(plans: map<string, seq<Version>>, before: map<nat, Feature>, after: map<nat, Feature>,
                           candidates: seq<nat>) {
    && OnlyArchives(before, after)
    && forall id :: id in before && after[id] != before[id] ==> id in candidates && !Referenced(plans, id)
  }

  /** The first k candidates are dealt with: those that are due are archived, and none of them is refused. */
  ghost predicate Archiving(plans: map<string, seq<Version>>, before: map<nat, Feature>, now: map<nat, Feature>,
                            candidates: seq<nat>, refusals: Refusals, k: nat, spent: int) {
    && k <= |candidates| && spent == DueCalls(plans, before, candidates, k)
    && forall j :: 0 <= j < k && Due(plans, before, candidates[j]) ==>
         candidates[j] in now && now[candidates[j]].archived && !refusals.archive(candidates[j])
  }

  /**
   All that is due is archived exactly when nothing is refused and there is time for it; a refusal is the reason only
   when there is one, and the lack of time only when it lacks.
   */
  ghost predicate ArchiveOutcome(plans: map<string, seq<Version>>, before: map<nat, Feature>, after: map<nat, Feature>,
                                 candidates: seq<nat>, refusals: Refusals, budget: nat, left: int, outcome: Outcome) {
    var calls := DueCalls(plans, before, candidates, |candidates|);
    && (outcome.Completed? <==>
          candidates == [] || (Unrefused(plans, before, candidates, refusals) && calls <= budget))
    && (outcome.Completed? ==>
          && left == budget - calls
          && forall id :: id in candidates && Due(plans, before, id) ==> id in after && after[id].archived)
    && (outcome.RefusedForGood? ==> !Unrefused(plans, before, candidates, refusals))
    && (outcome.Stopped? ==> calls > budget)
  }

  lemma ArchivingEnds(plans: map<string, seq<Version>>, start: map<nat, Feature>, now: map<nat, Feature>,
                      candidates: seq<nat>, refusals: Refusals, k: nat, spent: int, budget: nat, outcome: Outcome)
    requires k < |candidates| && Archiving(plans, start, now, candidates, refusals, k, spent)
    requires Due(plans, start, candidates[k]) && !refusals.listing
    requires if refusals.archive(candidates[k]) then outcome.RefusedForGood? else outcome.Stopped? && spent == budget
    ensures ArchiveOutcome(plans, start, now, candidates, refusals, budget, budget - spent, outcome)
  {
    DueCallsGrow(plans, start, candidates, k + 1, |candidates|);
    assert candidates[k] in candidates;
  }

  lemma ArchivingDone(plans: map<string, seq<Version>>, start: map<nat, Feature>, now: map<nat, Feature>,
                      candidates: seq<nat>, refusals: Refusals, budget: nat, left: nat)
    requires Archiving(plans, start, now, candidates, refusals, |candidates|, budget - left) && !refusals.listing
    ensures ArchiveOutcome(plans, start, now, candidates, refusals, budget, left, Completed)
  {
  }

  lemma ArchivingNext(plans: map<string, seq<Version>>, start: map<nat, Feature>, before: map<nat, Feature>,
                      after: map<nat, Feature>, candidates: seq<nat>, refusals: Refusals, k: nat, spent: int)
    requires k < |candidates| && Archiving(plans, start, before, candidates, refusals, k, spent)
    requires Archives(plans, start, before, candidates)
    requires var id := candidates[k];
      if Due(plans, start, id) then after == before[id := before[id].(archived := true)] && !refusals.archive(id)
      else after == before
    ensures Archives(plans, start, after, candidates)
    ensures Archiving(plans, start, after, candidates, refusals, k + 1,
                      spent + if Due(plans, start, candidates[k]) then 1 else 0)
  {
  }

  /** Neither the listing nor the archiving of a candidate that is due is refused. */
  ghost predicate Unrefused(plans: map<string, seq<Version>>, features: map<nat, Feature>, candidates: seq<nat>,
                            refusals: Refusals) {
    !refusals.listing && forall id :: id in candidates && Due(plans, features, id) ==> !refusals.archive(id)
  }

  /** The active features of a meter. */
  function OnMeter(features: map<nat, Feature>, slug: string): set<nat> {
    set id | id in features && !features[id].archived && features[id].meter == slug
  }

  /** Nothing references a feature of this meter. */
  ghost predicate Disused(plans: map<string, seq<Version>>, features: map<nat, Feature>, slug: string) {
    forall id :: id in OnMeter(features, slug) ==> !Referenced(plans, id)
  }

  ghost predicate Archivable(features: map<nat, Feature>, slug: string, refusals: Refusals) {
    && (refusals.listing ==> OnMeter(features, slug) == {})
    && forall id :: id in OnMeter(features, slug) ==> !refusals.archive(id)
  }

  ghost predicate MeterArchives(plans: map<string, seq<Version>>, before: map<nat, Feature>, after: map<nat, Feature>,
                                slug: string) {
    && OnlyArchives(before, after)
    && forall id :: id in before && after[id] != before[id] ==> before[id].meter == slug && !Referenced(plans, id)
  }

  predicate Owns(meters: map<string, string>, slug: string, meterName: string) {
    slug in meters && meters[slug] == meterName
  }

  /** The meter is not this owner's, or nothing references its features, none is refused and there is time for all. */
  ghost predicate Finalizable(plans: map<string, seq<Version>>, features: map<nat, Feature>,
                              meters: map<string, string>, slug: string, meterName: string, refusals: Refusals,
                              budget: nat) {
    || !Owns(meters, slug, meterName)
    || (&& Disused(plans, features, slug) && Archivable(features, slug, refusals)
        && |OnMeter(features, slug)| < budget)
  }

  /** Once what is due is archived, a meter has no active feature left exactly when nothing referenced one. */
  lemma LeftExactly(plans: map<string, seq<Version>>, before: map<nat, Feature>, after: map<nat, Feature>, slug: string)
    requires MeterArchives(plans, before, after, slug)
    requires forall id :: ActiveFeature(after, id) && after[id].meter == slug ==> Referenced(plans, id)
    ensures OnMeter(after, slug) == {} <==> Disused(plans, before, slug)
  {
    if OnMeter(after, slug) == {} {
      forall id | id in OnMeter(before, slug) ensures !Referenced(plans, id) {
        assert id !in OnMeter(after, slug);
      }
    } else {
      var id :| id in OnMeter(after, slug);
      assert id in OnMeter(before, slug);
    }
  }

  // ---- Deleting versions ----

  /** How many calls the deletion of a version takes. */
  function DeletesOf(v: Version, refused: bool): nat {
    if !Listed(v) then 0 else (if v.status.Active? then 1 else 0) + if refused then 0 else 1
  }

  function Marked(vs: seq<Version>, i: nat, status: Status): seq<Version>
    requires i < |vs|
  {
    vs[i := vs[i].(status := status)]
  }

  lemma MarkedSame(vs: seq<Version>, i: nat)
    requires i < |vs|
    ensures Marked(vs, i, vs[i].status) == vs
  {
  }

  lemma MarkedTwice(vs: seq<Version>, i: nat, first: Status, second: Status)
    requires i < |vs|
    ensures Marked(Marked(vs, i, first), i, second) == Marked(vs, i, second)
  {
  }

  /** What the deletion of a version leaves. */
  function Removed(v: Version, refused: bool): (r: Version)
    ensures !refused ==> !Listed(r)
    ensures refused ==> !r.status.Active? && (!v.status.Active? ==> r == v)
    ensures r.(status := v.status) == v
  {
    if !refused then v.(status := Deleted)
    else if v.status.Active? then v.(status := Archived)
    else v
  }

  function DeletesIn(vs: seq<Version>, refused: nat -> bool, n: nat): nat
    requires n <= |vs|
  {
    if n == 0 then 0 else DeletesIn(vs, refused, n - 1) + DeletesOf(vs[n - 1], refused(n - 1))
  }

  lemma {:induction false} DeletesGrow(vs: seq<Version>, refused: nat -> bool, n: nat, m: nat)
    requires n <= m <= |vs|
    ensures DeletesIn(vs, refused, n) <= DeletesIn(vs, refused, m)
  {
    if n < m {
      DeletesGrow(vs, refused, n, m - 1);
    }
  }

  function RemovedUpTo(vs: seq<Version>, refused: nat -> bool, n: nat): (r: seq<Version>)
    ensures |r| == |vs|
  {
    seq(|vs|, k requires 0 <= k < |vs| => if k < n then Removed(vs[k], refused(k)) else vs[k])
  }

  lemma RemovedNone(vs: seq<Version>, refused: nat -> bool)
    ensures RemovedUpTo(vs, refused, 0) == vs
  {
  }

  lemma RemovedNext(vs: seq<Version>, refused: nat -> bool, n: nat)
    requires n < |vs|
    ensures RemovedUpTo(vs, refused, n)[n] == vs[n]
    ensures RemovedUpTo(vs, refused, n + 1)
            == Marked(RemovedUpTo(vs, refused, n), n, Removed(vs[n], refused(n)).status)
  {
  }

  lemma RemovedSame(vs: seq<Version>, refused: nat -> bool, n: nat, after: seq<Version>)
    requires n <= |vs|
    requires after == RemovedUpTo(vs, refused, n) ||
             (n < |vs| && exists status :: after == Marked(RemovedUpTo(vs, refused, n), n, status))
    ensures SameButStatus(vs, after)
  {
    forall k | 0 <= k < |vs| ensures after[k] == vs[k].(status := after[k].status) {
      assert RemovedUpTo(vs, refused, n)[k] == if k < n then Removed(vs[k], refused(k)) else vs[k];
    }
  }

  /** The plans once every version of key's plan is deleted, unless refused. */
  function Withdrawn(plans: map<string, seq<Version>>, key: string, refused: nat -> bool): map<string, seq<Version>> {
    if key in plans then plans[key := RemovedUpTo(plans[key], refused, |plans[key]|)] else plans
  }

  /** The first i versions of key's plan have been dealt with. */
  ghost predicate Withdrawing(start: map<string, seq<Version>>, plans: map<string, seq<Version>>, key: string,
                              refused: nat -> bool, i: nat) {
    && key in start && key in plans && OnlyPlan(start, plans, key) && i <= |start[key]|
    && plans[key] == RemovedUpTo(start[key], refused, i)
  }

  lemma WithdrawnLater(start: map<string, seq<Version>>, plans: map<string, seq<Version>>, key: string,
                       refused: nat -> bool, i: nat)
    requires Withdrawing(start, plans, key, refused, i) && i < |start[key]|
    ensures |plans[key]| == |start[key]| && plans[key][i] == start[key][i]
  {
  }

  lemma WithdrawnNext(start: map<string, seq<Version>>, before: map<string, seq<Version>>,
                      after: map<string, seq<Version>>, key: string, refused: nat -> bool, i: nat)
    requires Withdrawing(start, before, key, refused, i) && i < |start[key]|
    requires key in after && OnlyPlan(before, after, key)
    requires exists status :: after[key] == Marked(before[key], i, status)
    ensures OnlyStatuses(start, after, key)
    ensures after[key] == Marked(before[key], i, Removed(start[key][i], refused(i)).status) ==>
            Withdrawing(start, after, key, refused, i + 1)
  {
    OnlyPlanTwice(start, before, after, key);
    RemovedNext(start[key], refused, i);
    RemovedSame(start[key], refused, i, after[key]);
  }

  lemma DeletesExceed(vs: seq<Version>, refused: nat -> bool, i: nat, budget: nat)
    requires i < |vs| && DeletesOf(vs[i], refused(i)) > budget - DeletesIn(vs, refused, i)
    ensures DeletesIn(vs, refused, |vs|) > budget
  {
    DeletesGrow(vs, refused, i + 1, |vs|);
  }

  lemma CutShort(start: map<string, seq<Version>>, plans: map<string, seq<Version>>, key: string,
                 refused: nat -> bool, i: nat, budget: nat, left: nat)
    requires key in start && OnlyStatuses(start, plans, key) && i < |start[key]|
    requires DeletesOf(start[key][i], refused(i)) > budget - DeletesIn(start[key], refused, i)
    ensures VersionsDeleted(start, plans, key, refused, budget, left, false)
  {
    var vs := VersionsOf(start, key);
    assert DeletesIn(vs, refused, |vs|) > budget by {
      DeletesExceed(vs, refused, i, budget);
    }
  }

  lemma WithdrawnAll(start: map<string, seq<Version>>, plans: map<string, seq<Version>>, key: string,
                     refused: nat -> bool, budget: nat, left: nat)
    requires key in start && Withdrawing(start, plans, key, refused, |start[key]|)
    requires left == budget - DeletesIn(start[key], refused, |start[key]|)
    ensures VersionsDeleted(start, plans, key, refused, budget, left, true)
  {
    RemovedSame(start[key], refused, |start[key]|, plans[key]);
    assert plans.Keys == start.Keys;
  }

  /** The versions are deleted exactly when there is time for all the calls; cut short, only statuses differ. */
  ghost predicate VersionsDeleted(before: map<string, seq<Version>>, after: map<string, seq<Version>>, key: string,
                                  refused: nat -> bool, budget: nat, left: nat, ok: bool) {
    var vs := VersionsOf(before, key);
    && OnlyStatuses(before, after, key) && (ok <==> DeletesIn(vs, refused, |vs|) <= budget)
    && (ok ==> after == Withdrawn(before, key, refused) && left == budget - DeletesIn(vs, refused, |vs|))
  }

  lemma NothingToDelete(plans: map<string, seq<Version>>, key: string, refused: nat -> bool, budget: nat)
    requires key !in plans
    ensures VersionsDeleted(plans, plans, key, refused, budget, budget, true)
  {
  }

  lemma WithdrawnNone(plans: map<string, seq<Version>>, key: string, refused: nat -> bool)
    requires key in plans
    ensures Withdrawing(plans, plans, key, refused, 0)
  {
    RemovedNone(plans[key], refused);
  }

  /** No plan but key's differs, and that only in the status of its versions. */
  ghost predicate OnlyStatuses(before: map<string, seq<Version>>, after: map<string, seq<Version>>, key: string) {
    && OnlyPlan(before, after, key) && (key in before <==> key in after)
    && (key in before ==> SameButStatus(before[key], after[key]))
  }

  ghost predicate SameButStatus(before: seq<Version>, after: seq<Version>) {
    |after| == |before| && forall k :: 0 <= k < |before| ==> after[k] == before[k].(status := after[k].status)
  }

  /** What the versions referenced and nothing references any more. */
  ghost function DueSet(plans: map<string, seq<Version>>, features: map<nat, Feature>, vs: seq<Version>): set<nat> {
    set id | id in features && ReferencedBy(vs, id) && !Referenced(plans, id)
  }

  /** Features are archived at most, and only those the versions referenced and nothing references any more. */
  ghost predicate FeaturesReleased(plans: map<string, seq<Version>>, before: map<nat, Feature>,
                                   after: map<nat, Feature>, vs: seq<Version>) {
    && OnlyArchives(before, after)
    && forall id :: id in before && after[id] != before[id] ==> ReferencedBy(vs, id) && !Referenced(plans, id)
  }

  /**
   When an Offer is released: always with time for all its deletions and for all the features due, and only with time
   for the deletions; when nothing is refused, only with time for both, and then every feature due is archived.
   */
  ghost predicate Released(before: map<string, seq<Version>>, after: map<string, seq<Version>>,
                           features: map<nat, Feature>, left: map<nat, Feature>, key: string, refused: nat -> bool,
                           refusals: Refusals, budget: nat, released: bool) {
    var vs := VersionsOf(before, key);
    var deletes, due := DeletesIn(vs, refused, |vs|), DueSet(Withdrawn(before, key, refused), features, vs);
    && (deletes + |due| <= budget ==> released)
    && (released ==> deletes <= budget && after == Withdrawn(before, key, refused))
    && (released && Compliant(refusals, vs) ==>
          deletes + |due| <= budget && forall id :: id in due ==> id in left && left[id].archived)
  }

  ghost function DueAmong(plans: map<string, seq<Version>>, features: map<nat, Feature>, candidates: seq<nat>, n: nat)
    : set<nat>
    requires n <= |candidates|
  {
    if n == 0 then {}
    else if Due(plans, features, candidates[n - 1]) then
      DueAmong(plans, features, candidates, n - 1) + {candidates[n - 1]}
    else DueAmong(plans, features, candidates, n - 1)
  }

  lemma {:induction false} DueAmongExactly(plans: map<string, seq<Version>>, features: map<nat, Feature>,
                                           candidates: seq<nat>, n: nat, id: nat)
    requires n <= |candidates|
    ensures id in DueAmong(plans, features, candidates, n) <==>
            Due(plans, features, id) && exists k :: 0 <= k < n && candidates[k] == id
  {
    if n > 0 {
      DueAmongExactly(plans, features, candidates, n - 1, id);
    }
  }

  lemma {:induction false} DueAmongCount(plans: map<string, seq<Version>>, features: map<nat, Feature>,
                                         candidates: seq<nat>, n: nat)
    requires n <= |candidates| && NoRepeats(candidates)
    ensures |DueAmong(plans, features, candidates, n)| == DueCalls(plans, features, candidates, n)
  {
    if n > 0 {
      DueAmongCount(plans, features, candidates, n - 1);
      DueAmongExactly(plans, features, candidates, n - 1, candidates[n - 1]);
    }
  }

  lemma DueCounted(plans: map<string, seq<Version>>, features: map<nat, Feature>, candidates: seq<nat>,
                   vs: seq<Version>)
    requires NoRepeats(candidates) && forall id :: id in candidates <==> ReferencedBy(vs, id)
    ensures DueCalls(plans, features, candidates, |candidates|) == |DueSet(plans, features, vs)|
  {
    DueAmongCount(plans, features, candidates, |candidates|);
    var among, due := DueAmong(plans, features, candidates, |candidates|), DueSet(plans, features, vs);
    forall id: nat ensures id in among <==> id in due {
      DueAmongExactly(plans, features, candidates, |candidates|, id);
      assert id in candidates <==> exists k :: 0 <= k < |candidates| && candidates[k] == id;
    }
    assert among == due;
  }

  // ---- Contents ----

  /** Nothing that concerns the features of these versions is refused. */
  ghost predicate Compliant(refusals: Refusals, vs: seq<Version>) {
    !refusals.listing && forall id :: ReferencedBy(vs, id) ==> !refusals.archive(id)
  }

  /** The latest version is published under the hash of the plan; an injective hash makes it that very plan. */
  ghost predicate Publishes(vs: seq<Version>, digest: Digest, content: string, features: set<nat>) {
    && Settled(vs, Desired(digest(content, features), content, features))
    && (Injective(digest) ==> vs[Latest(vs)].content == content && vs[Latest(vs)].features == features)
  }

  lemma EnsuredPublishes(before: seq<Version>, budget: nat, vs: seq<Version>, digest: Digest, content: string,
                         ids: seq<nat>)
    requires var d := DesiredPlan(digest, content, ids);
      PlanOk(before) && Needed(before, d) <= budget && vs == Ensured(before, d, budget)
    requires Tagged(vs, digest)
    ensures Publishes(vs, digest, content, SetOf(ids))
  {
    EnsuredSettles(before, DesiredPlan(digest, content, ids), budget);
  }

  lemma EnsuredSettles(vs: seq<Version>, d: Desired, budget: nat)
    requires PlanOk(vs) && budget >= Needed(vs, d)
    ensures Settled(Ensured(vs, d, budget), d)
  {
    CallsConverge(vs, d, Needed(vs, d));
  }

  /** Nothing but version i of key's plan differs, and that only in its status. */
  ghost predicate OnlyVersion(before: map<string, seq<Version>>, after: map<string, seq<Version>>, key: string,
                              i: nat) {
    && after.Keys == before.Keys && key in before && |after[key]| == |before[key]|
    && (forall other :: other in before && other != key ==> after[other] == before[other])
    && (forall k :: 0 <= k < |before[key]| && k != i ==> after[key][k] == before[key][k])
    && (i < |before[key]| ==> after[key][i].(status := Deleted) == before[key][i].(status := Deleted))
  }

  /** Active features for the first n wanted, one by one. */
  ghost predicate Realizes(ids: seq<nat>, features: map<nat, Feature>, wanted: seq<DesiredFeature>) {
    |ids| <= |wanted| && forall k :: 0 <= k < |ids| ==> IsFor(features, ids[k], wanted[k])
  }

  /** No plan but key's differs. */
  ghost predicate OnlyPlan(before: map<string, seq<Version>>, after: map<string, seq<Version>>, key: string) {
    after == before || (key in after && after == before[key := after[key]])
  }

  lemma OnlyPlanTwice(a: map<string, seq<Version>>, b: map<string, seq<Version>>, c: map<string, seq<Version>>,
                      key: string)
    requires OnlyPlan(a, b, key) && OnlyPlan(b, c, key)
    ensures OnlyPlan(a, c, key)
  {
    if c != b && b != a {
      assert c == a[key := c[key]];
    }
  }

  /** The plan to publish over these features. */
  function DesiredPlan(digest: Digest, content: string, ids: seq<nat>): Desired {
    Desired(digest(content, SetOf(ids)), content, SetOf(ids))
  }

  /** The keys among the first n wanted under which there is no active feature. */
  ghost function Missing(features: map<nat, Feature>, wanted: seq<DesiredFeature>, n: nat): set<string>
    requires n <= |wanted|
  {
    if n == 0 then {}
    else if HasKey(features, wanted[n - 1].key) then Missing(features, wanted, n - 1)
    else Missing(features, wanted, n - 1) + {wanted[n - 1].key}
  }

  lemma MissingStep(features: map<nat, Feature>, wanted: seq<DesiredFeature>, n: nat)
    requires n < |wanted|
    ensures |Missing(features, wanted, n + 1)| == |Missing(features, wanted, n)|
      + if HasKey(features, wanted[n].key) || wanted[n].key in Missing(features, wanted, n) then 0 else 1
  {
    var missing, key := Missing(features, wanted, n), wanted[n].key;
    if key in missing {
      assert missing + {key} == missing;
    }
  }

  lemma {:induction false} MissingExactly(features: map<nat, Feature>, wanted: seq<DesiredFeature>, n: nat, key: string)
    requires n <= |wanted|
    ensures key in Missing(features, wanted, n) <==>
            !HasKey(features, key) && exists k :: 0 <= k < n && wanted[k].key == key
  {
    if n > 0 {
      MissingExactly(features, wanted, n - 1, key);
    }
  }

  /** The first n wanted fit what there is, and each other. */
  ghost predicate AllFit(features: map<nat, Feature>, wanted: seq<DesiredFeature>, n: nat)
    requires n <= |wanted|
  {
    && (forall k :: 0 <= k < n ==> Fits(features, wanted[k]))
    && (forall j, k :: 0 <= j < k < n && wanted[j].key == wanted[k].key ==> wanted[j] == wanted[k])
  }

  /** All meters exist, the wanted features fit, and there is time to create the missing ones. */
  ghost predicate Syncable(features: map<nat, Feature>, meters: map<string, string>, wanted: seq<DesiredFeature>,
                           budget: nat) {
    && (forall k :: 0 <= k < |wanted| ==> wanted[k].meter in meters)
    && AllFit(features, wanted, |wanted|) && |Missing(features, wanted, |wanted|)| <= budget
  }

  /** What is left of the budget once the missing features are created, if it comes to that. */
  ghost function TimeLeft(features: map<nat, Feature>, meters: map<string, string>, wanted: seq<DesiredFeature>,
                          budget: nat): Option<nat> {
    if Syncable(features, meters, wanted, budget) then Some(budget - |Missing(features, wanted, |wanted|)|) else None
  }

  /** An Offer's features are added and none is touched; if they can be, there is one for each wanted. */
  ghost predicate FeaturesSynced(before: map<nat, Feature>, after: map<nat, Feature>, meters: map<string, string>,
                                 wanted: seq<DesiredFeature>, budget: nat, ids: seq<nat>) {
    && Grown(before, after, wanted, |ids|) && Realizes(ids, after, wanted)
    && (Syncable(before, meters, wanted, budget) ==> |ids| == |wanted|)
  }

  /** With the time left, key's plan gets as far as its calls do; the sync succeeds exactly when all are made. */
  ghost predicate PlanSynced(before: map<string, seq<Version>>, after: map<string, seq<Version>>, key: string,
                             d: Desired, left: Option<nat>, ok: bool) {
    && OnlyPlan(before, after, key)
    && VersionsOf(after, key) == (if left.Some? then Ensured(VersionsOf(before, key), d, left.value)
                                  else VersionsOf(before, key))
    && (ok <==> left.Some? && Needed(VersionsOf(before, key), d) <= left.value)
  }

  function VersionsOf(plans: map<string, seq<Version>>, key: string): seq<Version> {
    if key in plans then plans[key] else []
  }

  /** Nothing has changed but for active features added for the missing among the first n wanted. */
  ghost predicate Grown(before: map<nat, Feature>, after: map<nat, Feature>, wanted: seq<DesiredFeature>, n: nat) {
    && n <= |wanted| && Includes(before, after)
    && (forall id :: id in after && id !in before ==> AddedFor(before, after, wanted, n, id))
  }

  ghost predicate Includes(before: map<nat, Feature>, after: map<nat, Feature>) {
    forall id :: id in before ==> id in after && after[id] == before[id]
  }

  ghost predicate AddedFor(before: map<nat, Feature>, after: map<nat, Feature>, wanted: seq<DesiredFeature>, n: nat,
                           id: nat)
    requires n <= |wanted|
  {
    exists k :: 0 <= k < n && IsFor(after, id, wanted[k]) && !HasKey(before, wanted[k].key)
  }

  lemma {:induction false} MissingGrows(features: map<nat, Feature>, wanted: seq<DesiredFeature>, n: nat, m: nat)
    requires n <= m <= |wanted|
    ensures |Missing(features, wanted, n)| <= |Missing(features, wanted, m)|
  {
    if n < m {
      MissingGrows(features, wanted, n, m - 1);
      MissingStep(features, wanted, m - 1);
    }
  }

  /** A feature that is there by now either was there before or was added for an earlier one. */
  lemma KeyGrown(before: map<nat, Feature>, after: map<nat, Feature>, wanted: seq<DesiredFeature>, ids: seq<nat>,
                 key: string)
    requires Grown(before, after, wanted, |ids|) && Realizes(ids, after, wanted)
    ensures HasKey(after, key) <==> HasKey(before, key) || key in Missing(before, wanted, |ids|)
  {
    if id :| ActiveFeature(after, id) && after[id].key == key {
      if id !in before {
        assert AddedFor(before, after, wanted, |ids|, id);
      } else {
        assert ActiveFeature(before, id);
      }
    }
    if id :| ActiveFeature(before, id) && before[id].key == key {
      assert ActiveFeature(after, id);
    }
    MissingExactly(before, wanted, |ids|, key);
    if key in Missing(before, wanted, |ids|) {
      var k :| 0 <= k < |ids| && wanted[k].key == key;
      assert ActiveFeature(after, ids[k]);
    }
  }

  /** The first k wanted are ensured, at the cost of the missing ones. */
  ghost predicate Ensuring(start: map<nat, Feature>, now: map<nat, Feature>, wanted: seq<DesiredFeature>, k: nat,
                           spent: int) {
    && Grown(start, now, wanted, k) && AllFit(start, wanted, k) && spent == |Missing(start, wanted, k)|
  }

  /** What ensuring one feature does: nothing, or one is added. */
  ghost predicate Adds(before: map<nat, Feature>, after: map<nat, Feature>, f: DesiredFeature, id: nat) {
    if HasKey(before, f.key) then after == before else id !in before && after == before[id := Stocked(f)]
  }

  lemma FitsBefore(start: map<nat, Feature>, before: map<nat, Feature>, f: DesiredFeature)
    requires Includes(start, before) && Fits(before, f)
    ensures Fits(start, f)
  {
    forall id | ActiveFeature(start, id) && start[id].key == f.key ensures IsFor(start, id, f) {
      assert ActiveFeature(before, id);
    }
  }

  lemma FitNext(start: map<nat, Feature>, before: map<nat, Feature>, wanted: seq<DesiredFeature>, ids: seq<nat>)
    requires |ids| < |wanted| && Includes(start, before) && AllFit(start, wanted, |ids|)
    requires Fits(before, wanted[|ids|]) && Realizes(ids, before, wanted)
    ensures AllFit(start, wanted, |ids| + 1)
  {
    var k := |ids|;
    FitsBefore(start, before, wanted[k]);
    forall j | 0 <= j < k && wanted[j].key == wanted[k].key ensures wanted[j] == wanted[k] {
      assert ActiveFeature(before, ids[j]);
    }
  }

  lemma GrownNext(start: map<nat, Feature>, before: map<nat, Feature>, after: map<nat, Feature>,
                  wanted: seq<DesiredFeature>, k: nat, id: nat)
    requires k < |wanted| && Grown(start, before, wanted, k) && Adds(before, after, wanted[k], id)
    requires HasKey(start, wanted[k].key) ==> HasKey(before, wanted[k].key)
    ensures Grown(start, after, wanted, k + 1)
  {
    forall other | other in after && other !in start ensures AddedFor(start, after, wanted, k + 1, other) {
      if other in before {
        assert AddedFor(start, before, wanted, k, other);
        var j :| 0 <= j < k && IsFor(before, other, wanted[j]) && !HasKey(start, wanted[j].key);
        assert IsFor(after, other, wanted[j]);
      } else {
        assert IsFor(after, other, wanted[k]);
      }
    }
  }

  lemma RealizesMore(before: map<nat, Feature>, after: map<nat, Feature>, wanted: seq<DesiredFeature>, ids: seq<nat>,
                     id: nat, next: nat)
    requires |ids| < |wanted| && Realizes(ids, before, wanted) && IsFor(after, id, wanted[|ids|])
    requires Adds(before, after, wanted[|ids|], next)
    ensures Realizes(ids + [id], after, wanted)
  {
    var more := ids + [id];
    forall k | 0 <= k < |more| ensures IsFor(after, more[k], wanted[k]) {
      if k < |ids| {
        assert IsFor(before, ids[k], wanted[k]);
      }
    }
  }

  lemma MissingOne(start: map<nat, Feature>, before: map<nat, Feature>, wanted: seq<DesiredFeature>, ids: seq<nat>)
    requires |ids| < |wanted| && Grown(start, before, wanted, |ids|) && Realizes(ids, before, wanted)
    ensures |Missing(start, wanted, |ids| + 1)|
            == |Missing(start, wanted, |ids|)| + if HasKey(before, wanted[|ids|].key) then 0 else 1
    ensures HasKey(start, wanted[|ids|].key) ==> HasKey(before, wanted[|ids|].key)
  {
    KeyGrown(start, before, wanted, ids, wanted[|ids|].key);
    MissingStep(start, wanted, |ids|);
  }

  /** One more wanted feature ensured. */
  lemma EnsuredOne(start: map<nat, Feature>, before: map<nat, Feature>, after: map<nat, Feature>,
                   wanted: seq<DesiredFeature>, ids: seq<nat>, id: nat, next: nat, spent: int)
    requires |ids| < |wanted| && Ensuring(start, before, wanted, |ids|, spent) && Realizes(ids, before, wanted)
    requires Adds(before, after, wanted[|ids|], next) && IsFor(after, id, wanted[|ids|]) && Fits(before, wanted[|ids|])
    ensures Ensuring(start, after, wanted, |ids| + 1, spent + if HasKey(before, wanted[|ids|].key) then 0 else 1)
    ensures Realizes(ids + [id], after, wanted)
  {
    MissingOne(start, before, wanted, ids);
    assert AllFit(start, wanted, |ids| + 1) by {
      FitNext(start, before, wanted, ids);
    }
    assert Grown(start, after, wanted, |ids| + 1) by {
      GrownNext(start, before, after, wanted, |ids|, next);
    }
    assert Realizes(ids + [id], after, wanted) by {
      RealizesMore(before, after, wanted, ids, id, next);
    }
  }

  /** Why a wanted feature is not ensured: something does not fit, or time is up. */
  lemma NotEnsured(start: map<nat, Feature>, before: map<nat, Feature>, wanted: seq<DesiredFeature>, ids: seq<nat>,
                   spent: nat, budget: nat)
    requires |ids| < |wanted| && Ensuring(start, before, wanted, |ids|, spent) && Realizes(ids, before, wanted)
    requires !Fits(before, wanted[|ids|]) || (!HasKey(before, wanted[|ids|].key) && spent == budget)
    ensures !AllFit(start, wanted, |wanted|) || |Missing(start, wanted, |wanted|)| > budget
  {
    if !Fits(before, wanted[|ids|]) {
      NotFitting(start, before, wanted, |ids|);
    } else {
      MissingOne(start, before, wanted, ids);
      MissingGrows(start, wanted, |ids| + 1, |wanted|);
    }
  }

  lemma NotFitting(start: map<nat, Feature>, before: map<nat, Feature>, wanted: seq<DesiredFeature>, k: nat)
    requires k < |wanted| && Grown(start, before, wanted, k) && !Fits(before, wanted[k])
    ensures !AllFit(start, wanted, |wanted|)
  {
    if Fits(start, wanted[k]) {
      var id :| ActiveFeature(before, id) && before[id].key == wanted[k].key && !IsFor(before, id, wanted[k]);
      if id in start {
        assert ActiveFeature(start, id);
      } else {
        assert AddedFor(start, before, wanted, k, id);
      }
    }
  }

  function Stocked(f: DesiredFeature): Feature {
    Feature(f.key, f.meter, f.filter, false)
  }

  function SetOf(ids: seq<nat>): (r: set<nat>)
    ensures forall id :: id in r <==> id in ids
  {
    set id | id in ids
  }

  ghost predicate HasKey(features: map<nat, Feature>, key: string) {
    exists id :: ActiveFeature(features, id) && features[id].key == key
  }

  /** The wanted feature is well formed, and no active feature under its key differs from it. */
  ghost predicate Fits(features: map<nat, Feature>, f: DesiredFeature) {
    && f.key != "" && f.meter != ""
    && forall id :: ActiveFeature(features, id) && features[id].key == f.key ==> IsFor(features, id, f)
  }

  predicate IsFor(features: map<nat, Feature>, id: nat, f: DesiredFeature) {
    id in features && features[id] == Feature(f.key, f.meter, f.filter, false)
  }

  ghost predicate OnlyArchives(before: map<nat, Feature>, after: map<nat, Feature>) {
    after.Keys == before.Keys
    && forall id :: id in before ==> after[id] == before[id] || after[id] == before[id].(archived := true)
  }

  lemma BackedWithout(plans: map<string, seq<Version>>, key: string, features: map<nat, Feature>, id: nat)
    requires key in plans && Backed(plans[key], features) && id in features && !Referenced(plans, id)
    ensures Backed(plans[key], features[id := features[id].(archived := true)])
  {
    NotReferencedHere(plans, key, id);
    var vs, next := plans[key], features[id := features[id].(archived := true)];
    forall i, other | 0 <= i < |vs| && Listed(vs[i]) && other in vs[i].features ensures ActiveFeature(next, other) {
      assert ActiveFeature(features, other) && other != id;
    }
  }

  lemma ReferencedActive(plans: map<string, seq<Version>>, features: map<nat, Feature>)
    requires forall key :: key in plans ==> Backed(plans[key], features)
    ensures forall id :: Referenced(plans, id) ==> ActiveFeature(features, id)
  {
  }

  ghost predicate ReferencedBy(vs: seq<Version>, id: nat) {
    exists i :: 0 <= i < |vs| && Listed(vs[i]) && id in vs[i].features
  }

  lemma ReferencedSomewhere(plans: map<string, seq<Version>>, id: nat)
    ensures Referenced(plans, id) <==> exists key :: key in plans && ReferencedBy(plans[key], id)
  {
  }

  lemma NotReferencedHere(plans: map<string, seq<Version>>, key: string, id: nat)
    requires key in plans && !Referenced(plans, id)
    ensures forall i :: 0 <= i < |plans[key]| && Listed(plans[key][i]) ==> id !in plans[key][i].features
  {
  }

  /** The features the listed versions of one plan reference. */
  method FeatureIDsOf(vs: seq<Version>) returns (ids: set<nat>)
    ensures forall id :: id in ids <==> ReferencedBy(vs, id)
  {
    ids := {};
    for i := 0 to |vs|
      invariant forall id :: id in ids <==> exists k :: 0 <= k < i && Listed(vs[k]) && id in vs[k].features
    {
      if Listed(vs[i]) {
        ids := ids + vs[i].features;
      }
    }
  }

  method InSomeOrder(ids: set<nat>) returns (r: seq<nat>)
    ensures forall id :: id in r <==> id in ids
    ensures NoRepeats(r) && |r| == |ids|
  {
    r := [];
    var todo := ids;
    while todo != {}
      invariant todo <= ids && (forall id :: id in r <==> id in ids - todo)
      invariant NoRepeats(r) && |r| == |ids| - |todo|
      decreases |todo|
    {
      var id :| id in todo;
      assert id !in r;
      r := r + [id];
      todo := todo - {id};
    }
  }
}
