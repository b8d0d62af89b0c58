/**
 Subscription convergence: the decision for one mutation, OpenMeter's transition for each mutation, and the loop
 that alternates the two.
 */
module Subscriptions {
  import opened Common

  datatype Status = Active | Canceled | Scheduled | Inactive

  datatype PlanRef = PlanRef(key: string, version: int)

  datatype Subscription = Subscription(id: nat, status: Status, plan: Option<PlanRef>, activeFrom: int)

  /** The plan a customer is to be on: its key and its active version. */
  datatype Target = Target(planKey: string, version: int)

  datatype Step =
    | Done(current: Subscription, pending: Option<Subscription>)
    | Create
    | DeleteScheduled(sub: Subscription)
    | Restore(sub: Subscription)
    | Change(sub: Subscription)
    | Migrate(sub: Subscription)

  predicate OnPlan(s: Subscription, t: Target) {
    s.plan.Some? && s.plan.value.key == t.planKey && s.plan.value.version >= t.version
  }

  /** Active, or canceled with its end still to come. */
  predicate Live(s: Subscription) {
    s.status.Active? || s.status.Canceled?
  }

  function Current(subs: seq<Subscription>): (r: Option<Subscription>)
    ensures r.Some? ==> r.value in subs && Live(r.value)
    ensures r.None? ==> forall s :: s in subs ==> !Live(s)
  {
    if subs == [] then None
    else if Live(subs[0]) then Some(subs[0])
    else Current(subs[1..])
  }

  function ScheduledIn(subs: seq<Subscription>): (r: seq<Subscription>)
    ensures forall s :: s in r <==> s in subs && s.status.Scheduled?
    ensures |r| <= |subs|
  {
    if subs == [] then []
    else (if subs[0].status.Scheduled? then [subs[0]] else []) + ScheduledIn(subs[1..])
  }

  /** Different subscriptions have different ids, and OpenMeter allows one live subscription at a time. */
  ghost predicate WellFormed(subs: seq<Subscription>) {
    subs == [] ||
    (WellFormed(subs[1..]) && forall u :: u in subs[1..] ==> u.id != subs[0].id && !(Live(u) && Live(subs[0])))
  }

  ghost predicate NoStrays(scheduled: seq<Subscription>, t: Target) {
    forall s :: s in scheduled ==> OnPlan(s, t)
  }

  /** s is scheduled, and no other scheduled subscription starts before it. */
  ghost predicate Earliest(s: Subscription, scheduled: seq<Subscription>) {
    s in scheduled && forall u :: u in scheduled ==> s.activeFrom <= u.activeFrom
  }

  ghost predicate EarliestStray(s: Subscription, scheduled: seq<Subscription>, t: Target) {
    s in scheduled && !OnPlan(s, t) && forall u :: u in scheduled && !OnPlan(u, t) ==> s.activeFrom <= u.activeFrom
  }

  /** The states the rules call converged. */
  ghost predicate Converged(current: Option<Subscription>, scheduled: seq<Subscription>, t: Target) {
    match current
    case None => scheduled != [] && NoStrays(scheduled, t)
    case Some(c) =>
      if c.status.Canceled? then |scheduled| == 1 && NoStrays(scheduled, t)
      else scheduled == [] && OnPlan(c, t)
  }

  /** The decision, with any choice among scheduled subscriptions that start together. */
  ghost predicate StepOk(current: Option<Subscription>, scheduled: seq<Subscription>, t: Target, step: Step) {
    match current
    case None =>
      if !NoStrays(scheduled, t) then step.DeleteScheduled? && EarliestStray(step.sub, scheduled, t)
      else if scheduled != [] then step.Done? && Earliest(step.current, scheduled) && step.pending.None?
      else step == Create
    case Some(c) =>
      if c.status.Canceled? then
        if |scheduled| == 1 && NoStrays(scheduled, t) then step == Done(c, Some(scheduled[0]))
        else step == Restore(c)
      else if scheduled != [] then step.DeleteScheduled? && Earliest(step.sub, scheduled)
      else if c.plan.None? || c.plan.value.key != t.planKey then step == Change(c)
      else if c.plan.value.version < t.version then step == Migrate(c)
      else step == Done(c, None)
  }

  // ---- nextSubscriptionStep ----

  ghost predicate ByStart(s: seq<Subscription>) {
    forall i, j :: 0 <= i < j < |s| ==> s[i].activeFrom <= s[j].activeFrom
  }

  /** Where a subscription starting at start belongs in a sorted list. */
  method Position(r: seq<Subscription>, start: int) returns (k: nat)
    ensures k <= |r|
    ensures k > 0 ==> r[k - 1].activeFrom <= start
    ensures forall i :: k <= i < |r| ==> r[i].activeFrom > start
  {
    k := |r|;
    while k > 0 && r[k - 1].activeFrom > start
      invariant 0 <= k <= |r|
      invariant forall i :: k <= i < |r| ==> r[i].activeFrom > start
    {
      k := k - 1;
    }
  }

  lemma Inserted(r: seq<Subscription>, k: nat, s: Subscription)
    requires ByStart(r) && k <= |r|
    requires k > 0 ==> r[k - 1].activeFrom <= s.activeFrom
    requires forall i :: k <= i < |r| ==> r[i].activeFrom > s.activeFrom
    ensures ByStart(r[..k] + [s] + r[k..])
    ensures multiset(r[..k] + [s] + r[k..]) == multiset(r) + multiset{s}
  {
    assert r == r[..k] + r[k..];
    InsertedSorted(r[..k], r[k..], s);
  }

  lemma InsertedSorted(a: seq<Subscription>, b: seq<Subscription>, s: Subscription)
    requires ByStart(a + b) && (a != [] ==> a[|a| - 1].activeFrom <= s.activeFrom)
    requires forall i :: 0 <= i < |b| ==> b[i].activeFrom > s.activeFrom
    ensures ByStart(a + [s] + b)
  {
    var both, longer, n := a + b, a + [s] + b, |a|;
    forall i | 0 <= i < n ensures a[i].activeFrom <= s.activeFrom {
      assert both[i] == a[i] && both[n - 1] == a[n - 1];
    }
    forall i, j | 0 <= i < j < |longer| ensures longer[i].activeFrom <= longer[j].activeFrom {
      if i < n && j > n {
        assert both[i] == longer[i] && both[j - 1] == longer[j];
      } else if i > n {
        assert both[i - 1] == longer[i] && both[j - 1] == longer[j];
      } else if j < n {
        assert both[i] == longer[i] && both[j] == longer[j];
      }
    }
  }

  /** sort.Slice by ActiveFrom. */
  method SortByStart(s: seq<Subscription>) returns (r: seq<Subscription>)
    ensures ByStart(r) && multiset(r) == multiset(s)
  {
    r := [];
    for n := 0 to |s|
      invariant ByStart(r) && multiset(r) == multiset(s[..n])
    {
      var k := Position(r, s[n].activeFrom);
      Inserted(r, k, s[n]);
      r := r[..k] + [s[n]] + r[k..];
      assert s[..n + 1] == s[..n] + [s[n]];
    }
    assert s[..|s|] == s;
  }

  lemma SuffixStep(subs: seq<Subscription>, i: nat)
    requires i < |subs|
    ensures Current(subs[i..]) == if Live(subs[i]) then Some(subs[i]) else Current(subs[i + 1..])
    ensures ScheduledIn(subs[i..]) == (if subs[i].status.Scheduled? then [subs[i]] else []) + ScheduledIn(subs[i + 1..])
  {
    assert subs[i..][1..] == subs[i + 1..];
  }

  /** What the scan has found in the first i subscriptions. */
  ghost predicate Scanned(subs: seq<Subscription>, i: nat, current: Option<Subscription>,
                          scheduled: seq<Subscription>) {
    && i <= |subs|
    && Current(subs) == (if current.Some? then current else Current(subs[i..]))
    && ScheduledIn(subs) == scheduled + ScheduledIn(subs[i..])
  }

  lemma ScannedStep(subs: seq<Subscription>, i: nat, current: Option<Subscription>, scheduled: seq<Subscription>)
    requires Scanned(subs, i, current, scheduled) && i < |subs|
    ensures Scanned(subs, i + 1, if current.None? && Live(subs[i]) then Some(subs[i]) else current,
                    if subs[i].status.Scheduled? then scheduled + [subs[i]] else scheduled)
  {
    SuffixStep(subs, i);
    var rest := ScheduledIn(subs[i + 1..]);
    assert scheduled + ([subs[i]] + rest) == scheduled + [subs[i]] + rest;
    assert [] + rest == rest;
  }

  lemma ScannedAll(subs: seq<Subscription>, current: Option<Subscription>, scheduled: seq<Subscription>)
    requires Scanned(subs, |subs|, current, scheduled)
    ensures current == Current(subs) && scheduled == ScheduledIn(subs)
  {
    assert subs[|subs|..] == [];
    assert scheduled + [] == scheduled;
  }

  lemma ScannedNone(subs: seq<Subscription>)
    ensures Scanned(subs, 0, None, [])
  {
    assert subs[0..] == subs;
    assert [] + ScheduledIn(subs) == ScheduledIn(subs);
  }

  method Scan(subs: seq<Subscription>) returns (current: Option<Subscription>, scheduled: seq<Subscription>)
    ensures current == Current(subs) && scheduled == ScheduledIn(subs)
  {
    current, scheduled := None, [];
    ScannedNone(subs);
    for i := 0 to |subs|
      invariant Scanned(subs, i, current, scheduled)
    {
      ScannedStep(subs, i, current, scheduled);
      if Live(subs[i]) {
        if current.None? {
          current := Some(subs[i]);
        }
      } else if subs[i].status.Scheduled? {
        scheduled := scheduled + [subs[i]];
      }
    }
    ScannedAll(subs, current, scheduled);
  }

  /** The decision over the scheduled subscriptions in order of their start. */
  method Decide(current: Option<Subscription>, scheduled: seq<Subscription>, t: Target) returns (step: Step)
    requires ByStart(scheduled)
    ensures StepOk(current, scheduled, t, step)
  {
    if current.None? {
      var pending: Option<Subscription> := None;
      for i := 0 to |scheduled|
        invariant forall k :: 0 <= k < i ==> OnPlan(scheduled[k], t)
        invariant pending == if i == 0 then None else Some(scheduled[0])
      {
        if !OnPlan(scheduled[i], t) {
          return DeleteScheduled(scheduled[i]);
        }
        if pending.None? {
          pending := Some(scheduled[i]);
        }
      }
      return if pending.Some? then Done(pending.value, None) else Create;
    }
    if current.value.status.Canceled? {
      if |scheduled| == 1 && OnPlan(scheduled[0], t) {
        return Done(current.value, Some(scheduled[0]));
      }
      return Restore(current.value);
    }
    if |scheduled| > 0 {
      return DeleteScheduled(scheduled[0]);
    }
    if current.value.plan.None? || current.value.plan.value.key != t.planKey {
      return Change(current.value);
    }
    if current.value.plan.value.version < t.version {
      return Migrate(current.value);
    }
    return Done(current.value, None);
  }

  /** The order of the scheduled subscriptions does not matter to the decision. */
  lemma OrderIrrelevant(current: Option<Subscription>, a: seq<Subscription>, b: seq<Subscription>, t: Target,
                        step: Step)
    requires multiset(a) == multiset(b) && StepOk(current, a, t, step)
    ensures StepOk(current, b, t, step)
  {
    assert |multiset(a)| == |a| && |multiset(b)| == |b|;
    forall s ensures s in a <==> s in b {
      assert s in a <==> s in multiset(a);
    }
    if |a| == 1 {
      assert a[0] in b;
    }
  }

  method NextSubscriptionStep(subs: seq<Subscription>, t: Target) returns (step: Step)
    ensures StepOk(Current(subs), ScheduledIn(subs), t, step)
  {
    var current, unsorted := Scan(subs);
    var scheduled := SortByStart(unsorted);
    step := Decide(current, scheduled, t);
    OrderIrrelevant(current, scheduled, unsorted, t, step);
  }

  // ---- What OpenMeter does ----

  function Without(subs: seq<Subscription>, id: nat): (r: seq<Subscription>)
    ensures forall u :: u in r <==> u in subs && u.id != id
  {
    if subs == [] then []
    else (if subs[0].id == id then [] else [subs[0]]) + Without(subs[1..], id)
  }

  function DropScheduled(subs: seq<Subscription>): (r: seq<Subscription>)
    ensures forall u :: u in r <==> u in subs && !u.status.Scheduled?
  {
    if subs == [] then []
    else (if subs[0].status.Scheduled? then [] else [subs[0]]) + DropScheduled(subs[1..])
  }

  function Marked(u: Subscription, id: nat, status: Status): Subscription {
    if u.id == id then u.(status := status) else u
  }

  function WithStatus(subs: seq<Subscription>, id: nat, status: Status): (r: seq<Subscription>)
    ensures forall v :: v in r ==> exists u :: u in subs && u.id == v.id
  {
    if subs == [] then [] else [Marked(subs[0], id, status)] + WithStatus(subs[1..], id, status)
  }

  /** A subscription OpenMeter starts: on the version active then, which is the desired one or newer. */
  ghost predicate Fresh(made: Subscription, subs: seq<Subscription>, t: Target) {
    made.status.Active? && OnPlan(made, t) && forall u :: u in subs ==> u.id != made.id
  }

  /** The subscriptions, newest first, after a step; made is what a step that starts one starts. */
  function Applied(subs: seq<Subscription>, step: Step, made: Subscription): seq<Subscription> {
    match step
    case Done(_, _) => subs
    case Create => [made] + subs
    case DeleteScheduled(s) => Without(subs, s.id)
    case Restore(s) => WithStatus(DropScheduled(subs), s.id, Active)
    case Change(s) => [made] + WithStatus(subs, s.id, Inactive)
    case Migrate(s) => [made] + WithStatus(subs, s.id, Inactive)
  }

  function CountStrays(scheduled: seq<Subscription>, t: Target): nat {
    if scheduled == [] then 0
    else (if OnPlan(scheduled[0], t) then 0 else 1) + CountStrays(scheduled[1..], t)
  }

  /** How many steps convergence takes from here. */
  function StepsLeft(current: Option<Subscription>, scheduled: seq<Subscription>, t: Target): nat {
    match current
    case None => CountStrays(scheduled, t) + if CountStrays(scheduled, t) < |scheduled| then 0 else 1
    case Some(c) =>
      if c.status.Canceled? then
        if |scheduled| == 1 && OnPlan(scheduled[0], t) then 0
        else if OnPlan(c, t) then 1 else 2
      else |scheduled| + if OnPlan(c, t) then 0 else 1
  }

  function Measure(current: Option<Subscription>, scheduled: seq<Subscription>, t: Target): nat {
    |scheduled|
    + (if current.Some? && current.value.status.Canceled? then 1 else 0)
    + (if current.Some? && current.value.status.Active? && OnPlan(current.value, t) then 0 else 1)
  }

  /** How the definitions read a list from its head. */
  lemma ConsFacts(x: Subscription, r: seq<Subscription>, t: Target)
    ensures Current([x] + r) == if Live(x) then Some(x) else Current(r)
    ensures ScheduledIn([x] + r) == (if x.status.Scheduled? then [x] else []) + ScheduledIn(r)
    ensures WellFormed([x] + r) <==> WellFormed(r) && forall u :: u in r ==> u.id != x.id && !(Live(u) && Live(x))
    ensures CountStrays([x] + r, t) == (if OnPlan(x, t) then 0 else 1) + CountStrays(r, t)
  {
    assert ([x] + r)[1..] == r && ([x] + r)[0] == x;
  }

  lemma {:induction false} WithoutAbsent(subs: seq<Subscription>, id: nat)
    requires forall u :: u in subs ==> u.id != id
    ensures Without(subs, id) == subs
  {
    if subs != [] {
      WithoutAbsent(subs[1..], id);
    }
  }

  lemma {:induction false} WithoutCurrent(subs: seq<Subscription>, s: Subscription)
    requires WellFormed(subs) && s in subs && !Live(s)
    ensures WellFormed(Without(subs, s.id)) && Current(Without(subs, s.id)) == Current(subs)
  {
    var x, r := subs[0], subs[1..];
    if x == s {
      WithoutAbsent(r, s.id);
      assert Without(subs, s.id) == r;
    } else {
      WithoutCurrent(r, s);
      assert Without(subs, s.id) == [x] + Without(r, s.id);
      ConsFacts(x, Without(r, s.id), Target("", 0));
    }
  }

  lemma {:induction false} WithoutCount(subs: seq<Subscription>, s: Subscription)
    requires WellFormed(subs) && s in subs && s.status.Scheduled?
    ensures |ScheduledIn(Without(subs, s.id))| == |ScheduledIn(subs)| - 1
  {
    var x, r := subs[0], subs[1..];
    if x == s {
      WithoutAbsent(r, s.id);
      assert Without(subs, s.id) == r;
    } else {
      WithoutCount(r, s);
      assert Without(subs, s.id) == [x] + Without(r, s.id);
      ConsFacts(x, Without(r, s.id), Target("", 0));
    }
  }

  /** The strays of a whole list. */
  function StraysIn(subs: seq<Subscription>, t: Target): nat {
    if subs == [] then 0
    else (if subs[0].status.Scheduled? && !OnPlan(subs[0], t) then 1 else 0) + StraysIn(subs[1..], t)
  }

  lemma {:induction false} StraysInCounts(subs: seq<Subscription>, t: Target)
    ensures StraysIn(subs, t) == CountStrays(ScheduledIn(subs), t)
  {
    if subs != [] {
      StraysInCounts(subs[1..], t);
      ConsFacts(subs[0], ScheduledIn(subs[1..]), t);
      assert [] + ScheduledIn(subs[1..]) == ScheduledIn(subs[1..]);
    }
  }

  lemma {:induction false} WithoutStrays(subs: seq<Subscription>, s: Subscription, t: Target)
    requires WellFormed(subs) && s in subs && s.status.Scheduled?
    ensures StraysIn(Without(subs, s.id), t) == StraysIn(subs, t) - if OnPlan(s, t) then 0 else 1
  {
    var x, r := subs[0], subs[1..];
    if x == s {
      WithoutAbsent(r, s.id);
      assert Without(subs, s.id) == r;
    } else {
      WithoutStrays(r, s, t);
      assert Without(subs, s.id) == [x] + Without(r, s.id);
      assert ([x] + Without(r, s.id))[1..] == Without(r, s.id);
    }
  }

  lemma RemoveScheduled(subs: seq<Subscription>, s: Subscription, t: Target)
    requires WellFormed(subs) && s in subs && s.status.Scheduled?
    ensures WellFormed(Without(subs, s.id)) && Current(Without(subs, s.id)) == Current(subs)
    ensures |ScheduledIn(Without(subs, s.id))| == |ScheduledIn(subs)| - 1
    ensures CountStrays(ScheduledIn(Without(subs, s.id)), t)
            == CountStrays(ScheduledIn(subs), t) - if OnPlan(s, t) then 0 else 1
  {
    WithoutCurrent(subs, s);
    WithoutCount(subs, s);
    WithoutStrays(subs, s, t);
    StraysInCounts(subs, t);
    StraysInCounts(Without(subs, s.id), t);
  }

  lemma {:induction false} WithStatusAbsent(subs: seq<Subscription>, id: nat, status: Status)
    requires forall u :: u in subs ==> u.id != id
    ensures WithStatus(subs, id, status) == subs
  {
    if subs != [] {
      WithStatusAbsent(subs[1..], id, status);
    }
  }

  /** The only live subscription takes another status. */
  lemma {:induction false} WithStatusFacts(subs: seq<Subscription>, c: Subscription, status: Status)
    requires WellFormed(subs) && c in subs && Live(c) && !status.Scheduled?
    ensures var next := WithStatus(subs, c.id, status);
      && WellFormed(next) && ScheduledIn(next) == ScheduledIn(subs)
      && Current(next) == if status.Inactive? then None else Some(c.(status := status))
  {
    var x, r := subs[0], subs[1..];
    var t := Target("", 0);
    if x == c {
      WithStatusAbsent(r, c.id, status);
      ConsFacts(c.(status := status), r, t);
      assert Current(r).None?;
    } else {
      WithStatusFacts(r, c, status);
      ConsFacts(x, WithStatus(r, c.id, status), t);
    }
  }

  lemma {:induction false} DropFacts(subs: seq<Subscription>)
    requires WellFormed(subs)
    ensures WellFormed(DropScheduled(subs)) && Current(DropScheduled(subs)) == Current(subs)
    ensures ScheduledIn(DropScheduled(subs)) == []
  {
    if subs != [] {
      DropFacts(subs[1..]);
      ConsFacts(subs[0], DropScheduled(subs[1..]), Target("", 0));
      assert [] + DropScheduled(subs[1..]) == DropScheduled(subs[1..]);
    }
  }

  /** Where one step of the decision leads, as far as the next decision can tell. */
  ghost predicate Leads(c: Option<Subscription>, scheduled: seq<Subscription>, t: Target, step: Step,
                        made: Subscription, nextC: Option<Subscription>, nextScheduled: seq<Subscription>) {
    match step
    case Done(_, _) => nextC == c && nextScheduled == scheduled
    case DeleteScheduled(s) =>
      && nextC == c && |nextScheduled| == |scheduled| - 1
      && CountStrays(nextScheduled, t) == CountStrays(scheduled, t) - if OnPlan(s, t) then 0 else 1
    case Restore(s) => nextC == Some(s.(status := Active)) && nextScheduled == []
    case Create => nextC == Some(made) && nextScheduled == []
    case Change(_) => nextC == Some(made) && nextScheduled == []
    case Migrate(_) => nextC == Some(made) && nextScheduled == []
  }

  lemma RestoreLeads(subs: seq<Subscription>, c: Subscription)
    requires WellFormed(subs) && Current(subs) == Some(c)
    ensures var next := WithStatus(DropScheduled(subs), c.id, Active);
      WellFormed(next) && Current(next) == Some(c.(status := Active)) && ScheduledIn(next) == []
  {
    DropFacts(subs);
    WithStatusFacts(DropScheduled(subs), c, Active);
  }

  lemma StartLeads(subs: seq<Subscription>, c: Subscription, t: Target, made: Subscription)
    requires WellFormed(subs) && Current(subs) == Some(c) && Fresh(made, subs, t)
    ensures var next := [made] + WithStatus(subs, c.id, Inactive);
      WellFormed(next) && Current(next) == Some(made) && ScheduledIn(next) == ScheduledIn(subs)
  {
    var ended := WithStatus(subs, c.id, Inactive);
    WithStatusFacts(subs, c, Inactive);
    ConsFacts(made, ended, t);
  }

  lemma StepLeads(subs: seq<Subscription>, t: Target, step: Step, made: Subscription)
    requires WellFormed(subs) && StepOk(Current(subs), ScheduledIn(subs), t, step) && Fresh(made, subs, t)
    ensures var next := Applied(subs, step, made);
      WellFormed(next) && Leads(Current(subs), ScheduledIn(subs), t, step, made, Current(next), ScheduledIn(next))
  {
    match step
    case Done(_, _) =>
    case Create => ConsFacts(made, subs, t);
    case DeleteScheduled(s) => RemoveScheduled(subs, s, t);
    case Restore(s) => RestoreLeads(subs, s);
    case Change(s) => StartLeads(subs, s, t, made);
    case Migrate(s) => StartLeads(subs, s, t, made);
  }

  lemma {:induction false} StraysZero(scheduled: seq<Subscription>, t: Target)
    ensures CountStrays(scheduled, t) == 0 <==> NoStrays(scheduled, t)
    ensures CountStrays(scheduled, t) <= |scheduled|
  {
    if scheduled != [] {
      StraysZero(scheduled[1..], t);
      assert scheduled == [scheduled[0]] + scheduled[1..];
    }
  }

  /** The decision says there is nothing to do exactly in the states the rules call converged. */
  lemma DoneIffConverged(current: Option<Subscription>, scheduled: seq<Subscription>, t: Target, step: Step)
    requires StepOk(current, scheduled, t, step) && (current.Some? ==> Live(current.value))
    ensures step.Done? <==> Converged(current, scheduled, t)
    ensures Converged(current, scheduled, t) <==> StepsLeft(current, scheduled, t) == 0
  {
    StraysZero(scheduled, t);
  }

  /** Every step brings convergence one step closer, and lowers the measure that bounds it. */
  lemma LeadsProgress(c: Option<Subscription>, scheduled: seq<Subscription>, t: Target, step: Step, made: Subscription,
                      nextC: Option<Subscription>, nextScheduled: seq<Subscription>)
    requires StepOk(c, scheduled, t, step) && !step.Done? && (c.Some? ==> Live(c.value))
    requires Leads(c, scheduled, t, step, made, nextC, nextScheduled) && made.status.Active? && OnPlan(made, t)
    ensures StepsLeft(nextC, nextScheduled, t) == StepsLeft(c, scheduled, t) - 1
    ensures Measure(nextC, nextScheduled, t) < Measure(c, scheduled, t)
  {
    StraysZero(scheduled, t);
    StraysZero(nextScheduled, t);
  }

  lemma StepProgress(subs: seq<Subscription>, t: Target, step: Step, made: Subscription)
    requires WellFormed(subs) && StepOk(Current(subs), ScheduledIn(subs), t, step) && Fresh(made, subs, t)
    requires !step.Done?
    ensures var next := Applied(subs, step, made);
      && WellFormed(next)
      && StepsLeft(Current(next), ScheduledIn(next), t) == StepsLeft(Current(subs), ScheduledIn(subs), t) - 1
      && Measure(Current(next), ScheduledIn(next), t) < Measure(Current(subs), ScheduledIn(subs), t)
  {
    StepLeads(subs, t, step, made);
    var next := Applied(subs, step, made);
    LeadsProgress(Current(subs), ScheduledIn(subs), t, step, made, Current(next), ScheduledIn(next));
  }

  /** The measure bounds the steps, and so does the plain count the documentation of the loop relies on. */
  lemma StepsBounded(current: Option<Subscription>, scheduled: seq<Subscription>, t: Target)
    requires current.Some? ==> Live(current.value)
    ensures StepsLeft(current, scheduled, t) <= Measure(current, scheduled, t)
    ensures current.Some? && current.value.status.Canceled? ==> StepsLeft(current, scheduled, t) <= 2
    ensures StepsLeft(current, scheduled, t) <= |scheduled| + 1 || (current.Some? && current.value.status.Canceled?)
  {
    StraysZero(scheduled, t);
  }
}
