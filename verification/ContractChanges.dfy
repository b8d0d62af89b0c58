/**
 The change step of a contract is one EnsureSubscription call: what Contracts says a reconcile decides and changes is
 what the call does to the account's subscriptions, step by step.
 */
module ContractChanges {
  import opened Common
  import opened Subscriptions
  import opened Ensuring = EnsureSubscription
  import Contracts

  /** The account as a contract knows it: one active subscription, on the current plan, and nothing scheduled. */
  ghost predicate Sees(subs: seq<Subscription>, w: Contracts.World) {
    && WellFormed(subs) && ScheduledIn(subs) == [] && Current(subs).Some?
    && var c := Current(subs).value;
       c.status.Active? && c.plan.Some? && c.plan.value.key == w.current && c.activeFrom == w.activeFrom
  }

  /** What the reconcile asks of EnsureSubscription. */
  function Asked(w: Contracts.World, clock: Contracts.Clock, version: int, now: int): Desired {
    Desired(Target(w.offered, version), Contracts.Started(w), Contracts.Due(w, clock), now)
  }

  /** The calendar answers for the live subscription, and an account on the offered plan is on its version. */
  ghost predicate Reads(subs: seq<Subscription>, w: Contracts.World, version: int, periods: int -> Option<Period>,
                        periodOf: nat -> Option<Period>, now: int) {
    && Sees(subs, w) && periodOf(Current(subs).value.id) == periods(now)
    && (w.offered == w.current ==> Current(subs).value.plan.value.version >= version)
  }

  /** With one active subscription and nothing scheduled, the only step is a change of its plan. */
  lemma OnlyChange(subs: seq<Subscription>, w: Contracts.World, version: int, step: Step)
    requires Sees(subs, w) && (w.offered == w.current ==> Current(subs).value.plan.value.version >= version)
    requires StepOk(Current(subs), ScheduledIn(subs), Target(w.offered, version), step) && !step.Done?
    ensures step == Change(Current(subs).value) && w.offered != w.current
  {
  }

  /** Such a change leads to one active subscription on the offered plan. */
  lemma ChangeLeads(subs: seq<Subscription>, w: Contracts.World, version: int, made: Subscription)
    requires Sees(subs, w) && Fresh(made, subs, Target(w.offered, version))
    ensures var next := Applied(subs, Change(Current(subs).value), made);
      && Sees(next, w.(current := w.offered, activeFrom := made.activeFrom))
      && Left(next, Target(w.offered, version)) == 0
  {
    StartLeads(subs, Current(subs).value, Target(w.offered, version), made);
  }

  lemma SameSight(subs: seq<Subscription>, w: Contracts.World, v: Contracts.World)
    requires Sees(subs, w) && v.current == w.current && v.activeFrom == w.activeFrom
    ensures Sees(subs, v)
  {
  }

  /** A step of the call makes the change that was decided, and leaves the account on the offered plan. */
  lemma StepIsChange(subs: seq<Subscription>, next: seq<Subscription>, w: Contracts.World, clock: Contracts.Clock,
                     version: int, periods: int -> Option<Period>, periodOf: nat -> Option<Period>, now: int)
    requires Reads(subs, w, version, periods, periodOf, now)
    requires Steps(subs, next, Asked(w, clock, version, now), periodOf)
    ensures var decision := Contracts.Decision(w, clock, periods, now);
      && decision.Some? && !decision.value.Wait?
      && Sees(next, Contracts.Changed(w, decision, now))
    ensures Left(next, Target(w.offered, version)) == 0
  {
    var d := Asked(w, clock, version, now);
    var step, made :| && Moves(subs, d.target, step, made) && next == Applied(subs, step, made)
      && (step.Change? && d.changeAtPeriodEnd ==>
            !PeriodChangeTime(step.sub.activeFrom, periodOf(step.sub.id), d.now, d.due).Wait?)
      && made.activeFrom == StartOf(step, d, periodOf);
    OnlyChange(subs, w, version, step);
    ChangeLeads(subs, w, version, made);
    var decision := Contracts.Decision(w, clock, periods, now);
    SameSight(next, w.(current := w.offered, activeFrom := made.activeFrom), Contracts.Changed(w, decision, now));
  }

  /** The call stops where it is when there is nothing to change, or the change is to wait. */
  lemma StopIsWait(subs: seq<Subscription>, w: Contracts.World, clock: Contracts.Clock, version: int,
                   periods: int -> Option<Period>, periodOf: nat -> Option<Period>, now: int, state: State)
    requires Reads(subs, w, version, periods, periodOf, now)
    requires Stopped(subs, Asked(w, clock, version, now), periodOf, state)
    ensures var decision := Contracts.Decision(w, clock, periods, now);
      (decision.None? || decision.value.Wait?) && state.changeAt == Contracts.ChangeAt(decision)
  {
  }

  /** With no step left there is no further one. */
  lemma NoneFurther(subs: seq<Subscription>, next: seq<Subscription>, d: Desired, periodOf: nat -> Option<Period>)
    requires WellFormed(subs) && Steps(subs, next, d, periodOf)
    ensures Left(subs, d.target) > 0
  {
    var step, made :| Moves(subs, d.target, step, made) && next == Applied(subs, step, made);
    StepProgress(subs, d.target, step, made);
  }

  /** A call cut anywhere has changed nothing or has made the decided change, which is a single step. */
  lemma PathIsCut(path: seq<seq<Subscription>>, w: Contracts.World, clock: Contracts.Clock, version: int,
                  periods: int -> Option<Period>, periodOf: nat -> Option<Period>, now: int)
    requires Path(path, Asked(w, clock, version, now), periodOf)
    requires Reads(path[0], w, version, periods, periodOf, now)
    ensures var decision := Contracts.Decision(w, clock, periods, now);
      && |path| <= 2
      && (|path| == 2 ==>
            && decision.Some? && !decision.value.Wait?
            && Sees(path[1], Contracts.Changed(w, decision, now)) && Left(path[1], Target(w.offered, version)) == 0)
  {
    if |path| >= 2 {
      var d := Asked(w, clock, version, now);
      assert Steps(path[0], path[0 + 1], d, periodOf);
      StepIsChange(path[0], path[1], w, clock, version, periods, periodOf, now);
      if |path| > 2 {
        assert Steps(path[1], path[1 + 1], d, periodOf);
        NoneFurther(path[1], path[2], d, periodOf);
        assert false;
      }
    }
  }

  /**
   A call that succeeds, however many rounds it takes, does what a reconcile is to decide: the account ends where the
   change leads, active from when it says, and what is reported as waiting is what waits.
   */
  lemma CallIsChangeStep(path: seq<seq<Subscription>>, w: Contracts.World, clock: Contracts.Clock, version: int,
                         periods: int -> Option<Period>, periodOf: nat -> Option<Period>, now: int, state: State)
    requires Path(path, Asked(w, clock, version, now), periodOf)
    requires Reads(path[0], w, version, periods, periodOf, now)
    requires Stopped(path[|path| - 1], Asked(w, clock, version, now), periodOf, state)
    ensures var decision := Contracts.Decision(w, clock, periods, now);
      && Sees(path[|path| - 1], Contracts.Changed(w, decision, now))
      && state.changeAt == Contracts.ChangeAt(decision)
  {
    PathIsCut(path, w, clock, version, periods, periodOf, now);
    if |path| == 1 {
      StopIsWait(path[0], w, clock, version, periods, periodOf, now, state);
    }
  }

  /** The change step of a reconcile, carried out: one that fails leaves what a reconcile cut there leaves. */
  method ChangeStep(server: Server, w: Contracts.World, clock: Contracts.Clock, version: int,
                    periods: int -> Option<Period>, periodOf: nat -> Option<Period>, now: int, faults: seq<Fault>)
    returns (r: Result<State, EnsureError>)
    requires server.Valid() && server.version >= version && |faults| == MAX_STEPS
    requires Reads(server.subs, w, version, periods, periodOf, now)
    modifies server
    ensures server.Valid()
    ensures var decision := Contracts.Decision(w, clock, periods, now);
      r.Ok? ==>
        && Sees(server.subs, Contracts.Changed(w, decision, now))
        && r.value.changeAt == Contracts.ChangeAt(decision)
    ensures Sees(server.subs, Contracts.Reconciled(w, clock, periods, now, Contracts.Early))
         || Sees(server.subs, Contracts.Reconciled(w, clock, periods, now, Contracts.Unrecorded))
    ensures (forall i :: 0 <= i < MAX_STEPS ==> faults[i].Fine?) ==> r.Ok?
  {
    ghost var path;
    r, path := EnsureSubscription(server, Asked(w, clock, version, now), periodOf, faults);
    PathIsCut(path, w, clock, version, periods, periodOf, now);
    if r.Ok? {
      CallIsChangeStep(path, w, clock, version, periods, periodOf, now, r.value);
    }
  }
}
