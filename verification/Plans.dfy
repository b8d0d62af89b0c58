/**
 Plan versions under one key. EnsurePlan takes at most two mutating calls; cut after any of them and called again, it
 continues where the cut left the versions.
 */
module Plans {
  import opened Common

  datatype Status = Draft | Active | Scheduled | Archived | Deleted

  /** A version: the hash in its description, the features its rate cards reference, and the rest of its content. */
  datatype Version = Version(status: Status, hash: string, content: string, features: set<nat>)

  /** The plan to publish. */
  datatype Desired = Desired(hash: string, content: string, features: set<nat>)

  predicate Listed(v: Version) {
    !v.status.Deleted?
  }

  /** The listed version with the highest number among the first n, or -1. Versions are in order of their number. */
  function LatestOf(vs: seq<Version>, n: nat): (i: int)
    requires n <= |vs|
    ensures -1 <= i < n
    ensures i >= 0 ==> Listed(vs[i])
    ensures forall k :: i < k < n ==> !Listed(vs[k])
  {
    if n == 0 then -1 else if Listed(vs[n - 1]) then n - 1 else LatestOf(vs, n - 1)
  }

  function Latest(vs: seq<Version>): int {
    LatestOf(vs, |vs|)
  }

  predicate Published(status: Status) {
    status.Active? || status.Scheduled?
  }

  /** At most one draft, which is the latest version, and at most one active version. */
  ghost predicate PlanOk(vs: seq<Version>) {
    && (forall i, j :: 0 <= i < j < |vs| ==> !(vs[i].status.Draft? && Listed(vs[j])))
    && (forall i, j :: 0 <= i < j < |vs| ==> !(vs[i].status.Active? && vs[j].status.Active?))
  }

  /** The latest version is published and built from d. */
  predicate Settled(vs: seq<Version>, d: Desired) {
    Latest(vs) >= 0 && Published(vs[Latest(vs)].status) && vs[Latest(vs)].hash == d.hash
  }

  function Created(vs: seq<Version>, d: Desired): seq<Version> {
    vs + [Version(Draft, d.hash, d.content, d.features)]
  }

  function Updated(vs: seq<Version>, i: nat, d: Desired): seq<Version>
    requires i < |vs|
  {
    vs[i := vs[i].(hash := d.hash, content := d.content, features := d.features)]
  }

  /** Publishing a draft archives the version active until then. */
  function PublishedAt(vs: seq<Version>, i: nat): seq<Version>
    requires i < |vs|
  {
    seq(|vs|, k requires 0 <= k < |vs| =>
      if k == i then vs[k].(status := Active)
      else if vs[k].status.Active? then vs[k].(status := Archived)
      else vs[k])
  }

  /** The mutating call EnsurePlan decides on. */
  function OneCall(vs: seq<Version>, d: Desired): seq<Version> {
    var i := Latest(vs);
    if i < 0 || vs[i].status.Archived? then Created(vs, d)
    else if vs[i].status.Draft? then
      if vs[i].hash != d.hash then Updated(vs, i, d) else PublishedAt(vs, i)
    else if vs[i].hash == d.hash then vs
    else Created(vs, d)
  }

  /** How many mutating calls one uninterrupted EnsurePlan makes. */
  function Needed(vs: seq<Version>, d: Desired): nat {
    var i := Latest(vs);
    if i >= 0 && vs[i].status.Draft? then if vs[i].hash == d.hash then 1 else 2
    else if Settled(vs, d) then 0
    else 2
  }

  function Calls(vs: seq<Version>, d: Desired, n: nat): seq<Version> {
    if n == 0 then vs else OneCall(Calls(vs, d, n - 1), d)
  }

  lemma OneCallKeeps(vs: seq<Version>, d: Desired)
    requires PlanOk(vs)
    ensures PlanOk(OneCall(vs, d))
  {
    var i, next := Latest(vs), OneCall(vs, d);
    if i < 0 || vs[i].status.Archived? || (Published(vs[i].status) && vs[i].hash != d.hash) {
      assert forall k :: 0 <= k < |vs| ==> next[k] == vs[k];
      assert forall k :: 0 <= k < |vs| ==> !vs[k].status.Draft?;
    }
  }

  lemma OneCallProgress(vs: seq<Version>, d: Desired)
    ensures Needed(vs, d) > 0 ==> Needed(OneCall(vs, d), d) == Needed(vs, d) - 1
    ensures Needed(vs, d) == 0 <==> Settled(vs, d)
    ensures Settled(vs, d) ==> OneCall(vs, d) == vs
    ensures |OneCall(vs, d)| <= |vs| + (if Needed(vs, d) == 2 then 1 else 0)
    ensures |OneCall(vs, d)| >= |vs|
  {
    var i, next := Latest(vs), OneCall(vs, d);
    if |next| > |vs| {
      assert Latest(next) == |vs|;
    } else if i >= 0 {
      assert forall k :: 0 <= k < |vs| ==> Listed(next[k]) == Listed(vs[k]);
      assert Latest(next) == i;
    }
  }

  /** Cut anywhere, the versions keep their shape; after enough calls the latest is published with the desired hash. */
  lemma {:induction false} CallsConverge(vs: seq<Version>, d: Desired, n: nat)
    requires PlanOk(vs)
    ensures PlanOk(Calls(vs, d, n)) && |vs| <= |Calls(vs, d, n)|
    ensures Needed(Calls(vs, d, n), d) == if n < Needed(vs, d) then Needed(vs, d) - n else 0
    ensures |Calls(vs, d, n)| <= |vs| + (if Needed(vs, d) == 2 && n > 0 then 1 else 0)
    ensures n >= Needed(vs, d) ==> Settled(Calls(vs, d, n), d)
  {
    if n > 0 {
      CallsConverge(vs, d, n - 1);
      OneCallKeeps(Calls(vs, d, n - 1), d);
      OneCallProgress(Calls(vs, d, n - 1), d);
    }
    OneCallProgress(Calls(vs, d, n), d);
  }

  /**
   What is published: a completed EnsurePlan that had something to do leaves the latest version active and on the plan,
   new or rewritten unless a draft of it was left, and every other version as it was but for the one active until then.
   */
  lemma PublishesExactly(vs: seq<Version>, d: Desired)
    requires PlanOk(vs) && Needed(vs, d) > 0
    ensures var after := Calls(vs, d, Needed(vs, d)); var i := Latest(after);
      && i >= 0 && |after| == (if Latest(vs) >= 0 && vs[Latest(vs)].status.Draft? then |vs| else |vs| + 1)
      && after[i] == (if Needed(vs, d) == 1 then vs[i].(status := Active)
                      else Version(Active, d.hash, d.content, d.features))
      && forall k :: 0 <= k < |vs| && k != i ==>
           after[k] == if vs[k].status.Active? then vs[k].(status := Archived) else vs[k]
  {
    var first := OneCall(vs, d);
    assert Calls(vs, d, 1) == OneCall(Calls(vs, d, 0), d) == first;
    OneCallProgress(vs, d);
    if Needed(vs, d) == 2 {
      assert Calls(vs, d, 2) == OneCall(first, d);
      assert |first| > |vs| ==> Latest(first) == |vs|;
      assert |first| == |vs| ==> Latest(first) == Latest(vs);
      PublishedLatest(first, Latest(first));
    } else {
      PublishedLatest(vs, Latest(vs));
    }
  }

  lemma PublishedLatest(vs: seq<Version>, i: nat)
    requires i == Latest(vs)
    ensures Latest(PublishedAt(vs, i)) == i
  {
    assert forall k :: 0 <= k < |vs| ==> Listed(PublishedAt(vs, i)[k]) == Listed(vs[k]);
  }

  lemma {:induction false} CallsAdd(vs: seq<Version>, d: Desired, n: nat, m: nat)
    ensures Calls(Calls(vs, d, n), d, m) == Calls(vs, d, n + m)
  {
    if m > 0 {
      CallsAdd(vs, d, n, m - 1);
      assert Calls(vs, d, n + m) == OneCall(Calls(vs, d, n + (m - 1)), d);
    }
  }

  lemma {:induction false} SettledStays(vs: seq<Version>, d: Desired, n: nat)
    requires Settled(vs, d)
    ensures Calls(vs, d, n) == vs
  {
    if n > 0 {
      SettledStays(vs, d, n - 1);
      OneCallProgress(vs, d);
    }
  }

  /** One EnsurePlan cut after the given number of mutating calls. */
  function Ensured(vs: seq<Version>, d: Desired, cut: nat): seq<Version> {
    Calls(vs, d, Min(cut, Needed(vs, d)))
  }

  /** The first k of a number of EnsurePlan calls for the same plan, each cut somewhere. */
  function Retried(vs: seq<Version>, d: Desired, cuts: seq<nat>, k: nat): seq<Version>
    requires k <= |cuts|
  {
    if k == 0 then vs else Ensured(Retried(vs, d, cuts, k - 1), d, cuts[k - 1])
  }

  /** How many mutating calls the retries have made between them. */
  function Made(needed: nat, cuts: seq<nat>, k: nat): (n: nat)
    requires k <= |cuts|
    ensures n <= needed
    ensures needed <= 2 && (exists i :: 0 <= i < k && cuts[i] >= 2) ==> n == needed
  {
    if k == 0 then 0
    else var before := Made(needed, cuts, k - 1); before + Min(cuts[k - 1], needed - before)
  }

  /** A call continues where the one before was cut. */
  lemma {:induction false} RetriesContinue(vs: seq<Version>, d: Desired, cuts: seq<nat>, k: nat)
    requires PlanOk(vs) && k <= |cuts|
    ensures Retried(vs, d, cuts, k) == Calls(vs, d, Made(Needed(vs, d), cuts, k))
  {
    if k > 0 {
      RetriesContinue(vs, d, cuts, k - 1);
      var needed := Needed(vs, d);
      var before := Made(needed, cuts, k - 1);
      assert Needed(Calls(vs, d, before), d) == needed - before by {
        CallsConverge(vs, d, before);
      }
      CallsAdd(vs, d, before, Min(cuts[k - 1], needed - before));
    }
  }

  /** However often the same plan is retried it gets at most one new version, and none once it is published. */
  lemma RetriesCreateOnce(vs: seq<Version>, d: Desired, cuts: seq<nat>)
    requires PlanOk(vs)
    ensures var after := Retried(vs, d, cuts, |cuts|);
      && PlanOk(after) && |vs| <= |after| <= |vs| + 1
      && ((exists i :: 0 <= i < |cuts| && cuts[i] >= 2) ==> Settled(after, d))
      && (Settled(vs, d) ==> after == vs)
  {
    var n := Made(Needed(vs, d), cuts, |cuts|);
    RetriesContinue(vs, d, cuts, |cuts|);
    CallsConverge(vs, d, n);
    if Settled(vs, d) {
      SettledStays(vs, d, n);
    }
  }

  // ---- Several plans published one after the other ----

  /** One EnsurePlan call: the plan wanted then, and where it is cut. */
  datatype Attempt = Attempt(desired: Desired, cut: nat)

  function After(vs: seq<Version>, run: seq<Attempt>, n: nat): seq<Version>
    requires n <= |run|
  {
    if n == 0 then vs else Ensured(After(vs, run, n - 1), run[n - 1].desired, run[n - 1].cut)
  }

  /** In every run there is at most one draft and one active version, and a completed call leaves its plan published. */
  lemma {:induction false} EveryRunOk(vs: seq<Version>, run: seq<Attempt>, n: nat)
    requires PlanOk(vs) && n <= |run|
    ensures PlanOk(After(vs, run, n))
    ensures n > 0 && run[n - 1].cut >= 2 ==> Settled(After(vs, run, n), run[n - 1].desired)
  {
    if n > 0 {
      EveryRunOk(vs, run, n - 1);
      var before, a := After(vs, run, n - 1), run[n - 1];
      CallsConverge(before, a.desired, Min(a.cut, Needed(before, a.desired)));
    }
  }
}
