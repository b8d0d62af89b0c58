/** Runs of catalog operations: meters are created, Offers synced and deleted, meters finalized, each cut anywhere. */
module CatalogRuns {
  import opened Common
  import opened Plans
  import opened Catalog

  datatype Operation =
    | CreateMeter(slug: string, meterName: string)
    | Sync(key: string, wanted: seq<DesiredFeature>, content: string)
    | Delete(key: string, refused: nat -> bool, refusals: Refusals)
    | Finalize(slug: string, meterName: string, refusals: Refusals)

  /** What OpenMeter holds between two operations. */
  datatype Holdings = Holdings(plans: map<string, seq<Version>>, features: map<nat, Feature>,
                               meters: map<string, string>)

  /** Versions keep their shape and their hash, and every feature a listed one references is active on a meter. */
  ghost predicate Sound(h: Holdings, digest: Digest) {
    && (forall key :: key in h.plans ==> PlanOk(h.plans[key]) && Tagged(h.plans[key], digest))
    && (forall id :: Referenced(h.plans, id) ==> ActiveFeature(h.features, id) && h.features[id].meter in h.meters)
  }

  /** What an operation that may make cut changes does, and when it is done. */
  ghost predicate Performed(op: Operation, cut: nat, a: Holdings, b: Holdings, done: bool, digest: Digest) {
    match op
    case CreateMeter(slug, meterName) =>
      done && b == a.(meters := if slug in a.meters then a.meters else a.meters[slug := meterName])
    case Sync(key, wanted, content) =>
      b.meters == a.meters && exists ids :: Synced(a, b, digest, key, wanted, content, cut, done, ids)
    case Delete(key, refused, refusals) =>
      && b.meters == a.meters && OnlyStatuses(a.plans, b.plans, key)
      && FeaturesReleased(b.plans, a.features, b.features, VersionsOf(a.plans, key))
      && Released(a.plans, b.plans, a.features, b.features, key, refused, refusals, cut, done)
    case Finalize(slug, meterName, refusals) =>
      && b.plans == a.plans && MeterArchives(a.plans, a.features, b.features, slug)
      && b.meters == (if done && Owns(a.meters, slug, meterName) then a.meters - {slug} else a.meters)
      && (done <==> Finalizable(a.plans, a.features, a.meters, slug, meterName, refusals, cut))
  }

  ghost predicate Synced(a: Holdings, b: Holdings, digest: Digest, key: string, wanted: seq<DesiredFeature>,
                         content: string, cut: nat, done: bool, ids: seq<nat>) {
    && FeaturesSynced(a.features, b.features, a.meters, wanted, cut, ids)
    && PlanSynced(a.plans, b.plans, key, DesiredPlan(digest, content, ids),
                  TimeLeft(a.features, a.meters, wanted, cut), done)
    && (done ==> Publishes(VersionsOf(b.plans, key), digest, content, SetOf(ids)))
  }

  function Now(store: Store): Holdings
    reads store
  {
    Holdings(store.plans, store.features, store.meters)
  }

  lemma ValidIsSound(store: Store)
    requires store.Valid()
    ensures Sound(Now(store), store.digest)
  {
    ReferencedActive(store.plans, store.features);
  }

  method Perform(store: Store, op: Operation, cut: nat) returns (done: bool)
    requires store.Valid()
    modifies store
    ensures store.Valid() && Performed(op, cut, old(Now(store)), Now(store), done, store.digest)
  {
    store.budget := cut;
    match op
    case CreateMeter(slug, meterName) =>
      if slug !in store.meters {
        store.meters := store.meters[slug := meterName];
      }
      done := true;
    case Sync(key, wanted, content) =>
      var ids;
      done, ids := store.SyncOffer(key, wanted, content);
      assert Synced(old(Now(store)), Now(store), store.digest, key, wanted, content, cut, done, ids);
    case Delete(key, refused, refusals) =>
      done := store.DeleteOffer(key, refused, refusals);
    case Finalize(slug, meterName, refusals) =>
      done := store.FinalizeMeter(slug, meterName, refusals);
  }

  ghost predicate PerformedAt(run: seq<Operation>, cuts: seq<nat>, history: seq<Holdings>, done: seq<bool>,
                              digest: Digest, i: nat)
    requires i < |run| && i < |cuts| && i + 1 < |history| && i < |done|
  {
    Performed(run[i], cuts[i], history[i], history[i + 1], done[i], digest)
  }

  /**
   Any run from an empty store: the history goes from operation to operation, and at every point of it every feature
   that a listed version references is active and its meter exists.
   */
  method RunAll(digest: Digest, run: seq<Operation>, cuts: seq<nat>) returns (history: seq<Holdings>, done: seq<bool>)
    requires |cuts| == |run|
    ensures |history| == |run| + 1 && |done| == |run| && history[0] == Holdings(map[], map[], map[])
    ensures forall i :: 0 <= i < |run| ==> PerformedAt(run, cuts, history, done, digest, i)
    ensures forall i :: 0 <= i <= |run| ==> Sound(history[i], digest)
  {
    var store := new Store(digest);
    history, done := [Now(store)], [];
    ValidIsSound(store);
    for i := 0 to |run|
      invariant store.Valid() && |history| == i + 1 && |done| == i && history[i] == Now(store)
      invariant history[0] == Holdings(map[], map[], map[])
      invariant forall k :: 0 <= k < i ==> PerformedAt(run, cuts, history, done, digest, k)
      invariant forall k :: 0 <= k <= i ==> Sound(history[k], digest)
    {
      var ok := Perform(store, run[i], cuts[i]);
      ValidIsSound(store);
      ghost var before, was := history, done;
      history, done := history + [Now(store)], done + [ok];
      forall k | 0 <= k < i + 1 ensures PerformedAt(run, cuts, history, done, digest, k) {
        if k < i {
          assert PerformedAt(run, cuts, before, was, digest, k);
        }
      }
    }
  }
}
