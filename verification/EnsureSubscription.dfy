/**
 EnsureSubscription: at most four rounds of reading, deciding and mutating, against a server where any call may fail
 before or after taking effect.
 */
module EnsureSubscription {
  import opened Common
  import opened Subscriptions

  const MAX_STEPS := 4
  const PERIOD_CHANGE_TOLERANCE := 90 * SECOND

  datatype Timing = At(time: int) | Immediately | Wait(until: int)

  /** periodChangeTime. */
  function PeriodChangeTime(activeFrom: int, period: Option<Period>, now: int, due: Option<int>): Timing {
    match period
    case None => Immediately
    case Some(p) =>
      if p.from > activeFrom && now >= p.from && now - p.from <= PERIOD_CHANGE_TOLERANCE then At(p.from)
      else if due.Some? && now >= due.value then Immediately
      else Wait(p.to)
  }

  datatype Desired = Desired(target: Target, changeAtPeriodEnd: bool, due: Option<int>, now: int)

  datatype State = State(current: Subscription, pending: Option<Subscription>, version: int, changeAt: Option<int>)

  datatype EnsureError = CallFailed | NotConverged

  /** What becomes of a round's calls: they succeed, one is refused, or the mutation's answer is lost. */
  datatype Fault = Fine | Refused | Lost

  function Left(subs: seq<Subscription>, t: Target): nat {
    StepsLeft(Current(subs), ScheduledIn(subs), t)
  }

  ghost predicate Settled(subs: seq<Subscription>, t: Target) {
    Converged(Current(subs), ScheduledIn(subs), t)
  }

  predicate OtherPlan(s: Subscription, t: Target) {
    s.plan.None? || s.plan.value.key != t.planKey
  }

  /** The steps end at a plan change that is deferred. */
  predicate EndsWaiting(subs: seq<Subscription>, d: Desired, periodOf: nat -> Option<Period>) {
    && d.changeAtPeriodEnd && Left(subs, d.target) > 0
    && Current(subs).Some? && OtherPlan(Current(subs).value, d.target)
    && PeriodChangeTime(Current(subs).value.activeFrom, periodOf(Current(subs).value.id), d.now, d.due).Wait?
  }

  ghost predicate Starts(made: Subscription, subs: seq<Subscription>, t: Target, from: int) {
    Fresh(made, subs, t) && made.activeFrom == from
  }

  /** One step as decided, with what it starts starting now, or where a deferred change is timed. */
  ghost predicate Steps(subs: seq<Subscription>, next: seq<Subscription>, d: Desired, periodOf: nat -> Option<Period>) {
    exists step, made ::
      && Moves(subs, d.target, step, made) && next == Applied(subs, step, made)
      && (step.Change? && d.changeAtPeriodEnd ==>
            !PeriodChangeTime(step.sub.activeFrom, periodOf(step.sub.id), d.now, d.due).Wait?)
      && made.activeFrom == StartOf(step, d, periodOf)
  }

  /** The states a call goes through, from step to step. */
  ghost predicate Path(states: seq<seq<Subscription>>, d: Desired, periodOf: nat -> Option<Period>) {
    states != [] && forall i :: 0 <= i < |states| - 1 ==> Steps(states[i], states[i + 1], d, periodOf)
  }

  function StartOf(step: Step, d: Desired, periodOf: nat -> Option<Period>): int {
    if step.Change? && d.changeAtPeriodEnd then
      var timing := PeriodChangeTime(step.sub.activeFrom, periodOf(step.sub.id), d.now, d.due);
      if timing.At? then timing.time else d.now
    else d.now
  }

  class Server {
    var subs: seq<Subscription>
    var nextId: nat
    /** The version of the desired plan active now; a plan's versions only grow. */
    const version: int

    ghost predicate Valid()
      reads this
    {
      WellFormed(subs) && forall u :: u in subs ==> u.id < nextId
    }

    constructor (subs: seq<Subscription>, nextId: nat, version: int)
      requires WellFormed(subs) && forall u :: u in subs ==> u.id < nextId
      ensures Valid() && this.subs == subs && this.version == version
    {
      this.subs, this.nextId, this.version := subs, nextId, version;
    }

    /** applySubscriptionStep, as OpenMeter carries it out; what it starts, it starts at from. */
    method Apply(d: Desired, step: Step, from: int)
      requires Valid() && version >= d.target.version
      requires StepOk(Current(subs), ScheduledIn(subs), d.target, step) && !step.Done?
      modifies this
      ensures Valid()
      ensures exists made :: Starts(made, old(subs), d.target, from) && subs == Applied(old(subs), step, made)
    {
      var started := if step.Migrate? then d.target.version else version;
      var made := Subscription(nextId, Active, Some(PlanRef(d.target.planKey, started)), from);
      assert Starts(made, subs, d.target, from);
      StepLeads(subs, d.target, step, made);
      IdsKept(subs, step, made, nextId);
      subs := Applied(subs, step, made);
      nextId := nextId + 1;
    }

    method Delete(id: nat)
      requires Valid()
      requires forall u :: u in subs && u.id == id ==> u.status.Scheduled?
      modifies this
      ensures Valid() && subs == Without(old(subs), id) && Current(subs) == old(Current(subs))
    {
      if u :| u in subs && u.id == id {
        WithoutCurrent(subs, u);
      } else {
        WithoutAbsent(subs, id);
      }
      subs := Without(subs, id);
    }

    /** Takes back a cancelation; refused unless the subscription is canceled and nothing is scheduled after it. */
    method Continue(s: Subscription) returns (ok: bool)
      requires Valid()
      modifies this
      ensures Valid() && ok == (old(Current(subs)) == Some(s) && s.status.Canceled? && old(ScheduledIn(subs)) == [])
      ensures subs == if ok then WithStatus(old(subs), s.id, Active) else old(subs)
      ensures ok ==> Current(subs) == Some(s.(status := Active)) && ScheduledIn(subs) == []
    {
      ok := Current(subs) == Some(s) && s.status.Canceled? && ScheduledIn(subs) == [];
      if ok {
        WithStatusFacts(subs, s, Active);
        subs := WithStatus(subs, s.id, Active);
      }
    }

    /** Ends an active subscription now; refused for any other. */
    method Cancel(id: nat) returns (ok: bool)
      requires Valid()
      modifies this
      ensures Valid()
      ensures ok == (&& old(Current(subs)).Some?
                     && old(Current(subs)).value.id == id
                     && old(Current(subs)).value.status.Active?)
      ensures subs == if ok then WithStatus(old(subs), id, Inactive) else old(subs)
      ensures ok ==> Current(subs) == None && ScheduledIn(subs) == old(ScheduledIn(subs))
    {
      var c := Current(subs);
      ok := c.Some? && c.value.id == id && c.value.status.Active?;
      if ok {
        WithStatusFacts(subs, c.value, Inactive);
        subs := WithStatus(subs, id, Inactive);
      }
    }
  }

  lemma IdsKept(subs: seq<Subscription>, step: Step, made: Subscription, n: nat)
    requires made.id == n && forall u :: u in subs ==> u.id < n
    ensures forall u :: u in Applied(subs, step, made) ==> u.id < n + 1
  {
  }

  /** A step other than a deferred change leaves the question where the steps end as it was. */
  lemma WaitingKept(subs: seq<Subscription>, d: Desired, periodOf: nat -> Option<Period>, step: Step,
                    made: Subscription)
    requires WellFormed(subs) && StepOk(Current(subs), ScheduledIn(subs), d.target, step) && Fresh(made, subs, d.target)
    requires !step.Done? && !(step.Change? && EndsWaiting(subs, d, periodOf))
    ensures EndsWaiting(Applied(subs, step, made), d, periodOf) == EndsWaiting(subs, d, periodOf)
  {
    StepLeads(subs, d.target, step, made);
    StepProgress(subs, d.target, step, made);
  }

  /** A step taken as decided, and not one that is to wait. */
  lemma StepTaken(subs: seq<Subscription>, d: Desired, periodOf: nat -> Option<Period>, step: Step,
                  made: Subscription)
    requires WellFormed(subs) && StepOk(Current(subs), ScheduledIn(subs), d.target, step) && !step.Done?
    requires Starts(made, subs, d.target, StartOf(step, d, periodOf))
    requires step.Change? && d.changeAtPeriodEnd ==>
      !PeriodChangeTime(step.sub.activeFrom, periodOf(step.sub.id), d.now, d.due).Wait?
    ensures var next := Applied(subs, step, made);
      && Left(subs, d.target) > 0 && Left(next, d.target) == Left(subs, d.target) - 1
      && (EndsWaiting(subs, d, periodOf) ==> Left(subs, d.target) > 1)
      && EndsWaiting(next, d, periodOf) == EndsWaiting(subs, d, periodOf)
      && Steps(subs, next, d, periodOf)
  {
    assert Moves(subs, d.target, step, made);
    StepProgress(subs, d.target, step, made);
    assert step.Change? ==> !EndsWaiting(subs, d, periodOf);
    WaitingKept(subs, d, periodOf, step, made);
    if EndsWaiting(subs, d, periodOf) {
      WaitsLast(subs, d, periodOf, step);
    }
  }

  /** A step that does not end the waiting leaves more to do. */
  lemma WaitsLast(subs: seq<Subscription>, d: Desired, periodOf: nat -> Option<Period>, step: Step)
    requires StepOk(Current(subs), ScheduledIn(subs), d.target, step) && !step.Done? && EndsWaiting(subs, d, periodOf)
    requires !step.Change?
    ensures Left(subs, d.target) > 1
  {
  }

  lemma PathGrows(path: seq<seq<Subscription>>, next: seq<Subscription>, d: Desired, periodOf: nat -> Option<Period>)
    requires Path(path, d, periodOf) && Steps(path[|path| - 1], next, d, periodOf)
    ensures Path(path + [next], d, periodOf)
  {
    var longer := path + [next];
    forall i | 0 <= i < |longer| - 1 ensures Steps(longer[i], longer[i + 1], d, periodOf) {
      if i < |path| - 1 {
        assert Steps(path[i], path[i + 1], d, periodOf);
      }
    }
  }

  method EnsureSubscription(server: Server, d: Desired, periodOf: nat -> Option<Period>, faults: seq<Fault>)
    returns (r: Result<State, EnsureError>, ghost path: seq<seq<Subscription>>)
    requires server.Valid() && server.version >= d.target.version && |faults| == MAX_STEPS
    modifies server
    ensures server.Valid()
    ensures Path(path, d, periodOf) && path[0] == old(server.subs) && path[|path| - 1] == server.subs
    ensures Left(server.subs, d.target) <= Left(old(server.subs), d.target)
    ensures r.Ok? ==> Stopped(server.subs, d, periodOf, r.value)
    ensures (forall i :: 0 <= i < MAX_STEPS ==> faults[i].Fine?) ==>
      (r.Ok? <==> Left(old(server.subs), d.target) <= if EndsWaiting(old(server.subs), d, periodOf) then 4 else 3)
  {
    var t := d.target;
    ghost var start := server.subs;
    path := [start];
    for i := 0 to MAX_STEPS
      invariant Path(path, d, periodOf) && path[0] == start && path[|path| - 1] == server.subs
      invariant server.Valid() && Left(server.subs, t) <= Left(start, t)
      invariant (forall k :: 0 <= k < i ==> faults[k].Fine?) ==>
        && Left(server.subs, t) == Left(start, t) - i
        && EndsWaiting(server.subs, d, periodOf) == EndsWaiting(start, d, periodOf)
    {
      if faults[i].Refused? {
        return Err(CallFailed), path;
      }
      var done := Round(server, d, periodOf);
      if done.Some? {
        return Ok(done.value), path;
      }
      PathGrows(path, server.subs, d, periodOf);
      path := path + [server.subs];
      if faults[i].Lost? {
        return Err(CallFailed), path;
      }
    }
    r := Err(NotConverged);
  }

  /** One round: read, decide, and stop or make one change. */
  method Round(server: Server, d: Desired, periodOf: nat -> Option<Period>) returns (done: Option<State>)
    requires server.Valid() && server.version >= d.target.version
    modifies server
    ensures server.Valid()
    ensures done.Some? ==> server.subs == old(server.subs) && Stopped(server.subs, d, periodOf, done.value)
    ensures done.None? ==>
      && Left(old(server.subs), d.target) > 0 && Left(server.subs, d.target) == Left(old(server.subs), d.target) - 1
      && (EndsWaiting(old(server.subs), d, periodOf) ==> Left(old(server.subs), d.target) > 1)
      && EndsWaiting(server.subs, d, periodOf) == EndsWaiting(old(server.subs), d, periodOf)
      && Steps(old(server.subs), server.subs, d, periodOf)
  {
    var t := d.target;
    var step := NextSubscriptionStep(server.subs, t);
    DoneIffConverged(Current(server.subs), ScheduledIn(server.subs), t, step);
    if step.Done? {
      return Some(State(step.current, step.pending, t.version, None));
    }
    var from := d.now;
    if step.Change? && d.changeAtPeriodEnd {
      var timing := PeriodChangeTime(step.sub.activeFrom, periodOf(step.sub.id), d.now, d.due);
      if timing.Wait? {
        return Some(State(step.sub, None, t.version, Some(timing.until)));
      }
      if timing.At? {
        from := timing.time;
      }
    }
    ghost var before := server.subs;
    server.Apply(d, step, from);
    ghost var made :| Starts(made, before, t, from) && server.subs == Applied(before, step, made);
    StepTaken(before, d, periodOf, step, made);
    done := None;
  }

  /** Why a round stops: the subscriptions are converged, or all that is left is a change that waits. */
  ghost predicate Stopped(subs: seq<Subscription>, d: Desired, periodOf: nat -> Option<Period>, state: State) {
    && state.version == d.target.version
    && if state.changeAt.None? then
         Settled(subs, d.target) && Left(subs, d.target) == 0 && Shows(subs, state.current, state.pending)
       else
         && EndsWaiting(subs, d, periodOf) && Left(subs, d.target) == 1
         && Current(subs) == Some(state.current) && state.pending.None?
         && PeriodChangeTime(state.current.activeFrom, periodOf(state.current.id), d.now, d.due)
            == Wait(state.changeAt.value)
  }

  /**
   The subscription reported as current is the live one or, with none live, the first to start; the one reported as
   pending is the successor of a canceled one.
   */
  ghost predicate Shows(subs: seq<Subscription>, current: Subscription, pending: Option<Subscription>) {
    match Current(subs)
    case None => Earliest(current, ScheduledIn(subs)) && pending.None?
    case Some(live) =>
      && current == live
      && (live.status.Canceled? <==> pending.Some?) && (pending.Some? ==> ScheduledIn(subs) == [pending.value])
  }

  // ---- Whole runs ----

  /** One step, as decided, with any subscription OpenMeter may start. */
  ghost predicate Next(subs: seq<Subscription>, next: seq<Subscription>, t: Target) {
    exists step, made :: Moves(subs, t, step, made) && next == Applied(subs, step, made)
  }

  ghost predicate Moves(subs: seq<Subscription>, t: Target, step: Step, made: Subscription) {
    StepOk(Current(subs), ScheduledIn(subs), t, step) && !step.Done? && Fresh(made, subs, t)
  }

  lemma NextProgress(subs: seq<Subscription>, next: seq<Subscription>, t: Target)
    requires WellFormed(subs) && Next(subs, next, t)
    ensures WellFormed(next) && Left(next, t) == Left(subs, t) - 1
  {
    var step, made :| Moves(subs, t, step, made) && next == Applied(subs, step, made);
    StepProgress(subs, t, step, made);
  }

  /** Consecutive states of a customer's subscriptions. */
  ghost predicate Run(states: seq<seq<Subscription>>, t: Target) {
    && states != [] && WellFormed(states[0])
    && forall i :: 0 <= i < |states| - 1 ==> Next(states[i], states[i + 1], t)
  }

  lemma {:induction false} RunProgress(states: seq<seq<Subscription>>, t: Target, n: nat)
    requires Run(states, t) && n < |states|
    ensures WellFormed(states[n]) && Left(states[n], t) == Left(states[0], t) - n
  {
    if n > 0 {
      RunProgress(states, t, n - 1);
      assert Next(states[n - 1], states[n - 1 + 1], t);
      NextProgress(states[n - 1], states[n], t);
    }
  }

  /** Every run is finite: it converges after exactly as many steps as were left, and not before. */
  lemma RunsConverge(states: seq<seq<Subscription>>, t: Target, n: nat)
    requires Run(states, t) && n < |states|
    ensures n <= Left(states[0], t) <= Measure(Current(states[0]), ScheduledIn(states[0]), t)
    ensures Settled(states[n], t) <==> n == Left(states[0], t)
  {
    RunProgress(states, t, n);
    StepsBounded(Current(states[0]), ScheduledIn(states[0]), t);
    SettledIffNoneLeft(states[n], t);
  }

  lemma SettledIffNoneLeft(subs: seq<Subscription>, t: Target)
    ensures Settled(subs, t) <==> Left(subs, t) == 0
  {
    StraysZero(ScheduledIn(subs), t);
  }

  /** One call of four rounds suffices when the current subscription is canceled or at most two are scheduled. */
  lemma OneCallSuffices(subs: seq<Subscription>, t: Target)
    requires |ScheduledIn(subs)| <= 2 || (Current(subs).Some? && Current(subs).value.status.Canceled?)
    ensures Left(subs, t) <= MAX_STEPS - 1
  {
    StepsBounded(Current(subs), ScheduledIn(subs), t);
  }

  // ---- CancelSubscriptions ----

  lemma {:induction false} SameId(subs: seq<Subscription>, u: Subscription, v: Subscription)
    requires WellFormed(subs) && u in subs && v in subs && u.id == v.id
    ensures u == v
  {
    if u != subs[0] && v != subs[0] {
      SameId(subs[1..], u, v);
    }
  }

  lemma {:induction false} OneLive(subs: seq<Subscription>, i: nat)
    requires WellFormed(subs) && i < |subs| && Live(subs[i])
    ensures Current(subs[i..]) == Some(subs[i]) && Current(subs[i + 1..]) == None
  {
    if i == 0 {
      assert subs[0..] == subs;
    } else {
      OneLive(subs[1..], i - 1);
      assert subs[1..][i - 1..] == subs[i..] && subs[1..][i..] == subs[i + 1..];
    }
  }

  lemma NoneScheduled(subs: seq<Subscription>)
    requires forall u :: u in subs ==> !u.status.Scheduled?
    ensures ScheduledIn(subs) == []
  {
    assert ScheduledIn(subs) != [] ==> ScheduledIn(subs)[0] in ScheduledIn(subs);
  }

  /** The first loop of CancelSubscriptions, cut when the allowed calls run out. */
  method DeleteScheduledFirst(server: Server, subs: seq<Subscription>, calls: nat) returns (ok: bool, left: nat)
    requires server.Valid() && server.subs == subs
    modifies server
    ensures server.Valid() && Current(server.subs) == Current(subs)
    ensures ok ==> ScheduledIn(server.subs) == []
    ensures left >= calls - |subs|
    ensures calls >= |subs| ==> ok
  {
    left := calls;
    for i := 0 to |subs|
      invariant server.Valid() && Current(server.subs) == Current(subs)
      invariant forall u :: u in server.subs ==> u in subs && (u.status.Scheduled? ==> u in subs[i..])
      invariant left >= calls - i
    {
      if subs[i].status.Scheduled? {
        if left == 0 {
          return false, left;
        }
        left := left - 1;
        forall u | u in server.subs && u.id == subs[i].id ensures u == subs[i] {
          SameId(subs, u, subs[i]);
        }
        server.Delete(subs[i].id);
      }
    }
    NoneScheduled(server.subs);
    ok := true;
  }

  /**
   CancelSubscriptions, cut after any number of calls: when it completes nothing is live or scheduled, and the order
   of its calls is one OpenMeter never refuses.
   */
  method CancelSubscriptions(server: Server, calls: nat) returns (ok: bool)
    requires server.Valid()
    modifies server
    ensures server.Valid()
    ensures ok ==> Current(server.subs).None? && ScheduledIn(server.subs) == []
    ensures calls >= 3 * |old(server.subs)| ==> ok
  {
    var subs, left := server.subs, calls;
    ok, left := DeleteScheduledFirst(server, subs, calls);
    if !ok {
      return;
    }
    assert subs[0..] == subs;
    for i := 0 to |subs|
      invariant server.Valid() && ScheduledIn(server.subs) == []
      invariant Current(server.subs) == Current(subs[i..])
      invariant left >= calls - |subs| - 2 * i
    {
      SuffixStep(subs, i);
      if Live(subs[i]) {
        OneLive(subs, i);
        if subs[i].status.Canceled? {
          if left == 0 {
            return false;
          }
          left := left - 1;
          ok := server.Continue(subs[i]);
          if !ok {
            return;
          }
        }
        if left == 0 {
          return false;
        }
        left := left - 1;
        ok := server.Cancel(subs[i].id);
        if !ok {
          return;
        }
      }
    }
    ok := true;
  }
}
