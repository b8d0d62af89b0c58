/**
 What teardown gets done: an uninterrupted pass deletes the customer if and only if nothing blocks it, and once nothing
 is left to settle every schedule of the finalizers ends with everything gone.
 */
module TeardownProgress {
  import opened Common
  import opened Teardown

  /** A step of the controller that neither fails nor stops. */
  ghost predicate Works(w: World, next: World) {
    Start(w, next) || Pick(w, next) || Call(w, next) || Store(w, next)
  }

  ghost predicate WorksAt(run: seq<World>, i: nat)
    requires i < |run| - 1
  {
    Works(run[i], run[i + 1])
  }

  /** Consecutive states of a controller that is left alone and never fails. */
  ghost predicate Undisturbed(run: seq<World>) {
    run != [] && forall i :: 0 <= i < |run| - 1 ==> WorksAt(run, i)
  }

  /** In the customer link's calls. */
  predicate InLink(pc: Pc) {
    pc.GetCustomer? || pc.CancelSubscriptions? || pc.ListSubscriptions? || Ended(pc)
  }

  predicate InProfile(pc: Pc) {
    pc.DeleteOverride? || pc.DeleteProfile?
  }

  /** Every finalizer of a is one of b. */
  predicate Within(a: set<Finalizer>, b: set<Finalizer>) {
    (Link in a ==> Link in b) && (Profile in a ==> Profile in b)
  }

  /** A pass holds no finalizer that is not stored, and the one that runs is held and not to run again. */
  predicate Orderly(w: World) {
    !w.pc.Idle? ==>
      && Within(w.todo, w.held) && Within(w.held, w.stored) && (w.pc.Persist? ==> w.todo == {})
      && (InLink(w.pc) ==> Link in w.held && Link !in w.todo)
      && (InProfile(w.pc) ==> Profile in w.held && Profile !in w.todo && Link !in w.held)
  }

  lemma WorksKeepsInv(w: World, next: World)
    requires Inv(w) && Works(w, next)
    ensures Inv(next) && next.live <= w.live
  {
    StepKeeps(w, next);
  }

  lemma CustomerInOrder(w: World, next: World)
    requires Orderly(w) && Customer(w, next)
    ensures Orderly(next)
  {
  }

  lemma SubscriptionsInOrder(w: World, next: World)
    requires Orderly(w) && (Cancel(w, next) || Subscriptions(w, next))
    ensures Orderly(next)
  {
  }

  lemma InvoicesInOrder(w: World, next: World)
    requires Orderly(w) && (Invoices(w, next) || Again(w, next))
    ensures Orderly(next)
  {
  }

  lemma OpeningInOrder(w: World, next: World)
    requires Orderly(w) && Opening(w, next)
    ensures Orderly(next)
  {
    if Customer(w, next) {
      CustomerInOrder(w, next);
    } else if Cancel(w, next) || Subscriptions(w, next) {
      SubscriptionsInOrder(w, next);
    } else {
      InvoicesInOrder(w, next);
    }
  }

  lemma LinkEndsInOrder(w: World, next: World)
    requires Orderly(w) && (Look(w, next) || Release(w, next) || Delete(w, next))
    ensures Orderly(next)
  {
  }

  lemma ProfileInOrder(w: World, next: World)
    requires Orderly(w) && (Override(w, next) || Profiles(w, next))
    ensures Orderly(next)
  {
  }

  lemma ClosingInOrder(w: World, next: World)
    requires Orderly(w) && Closing(w, next)
    ensures Orderly(next)
  {
    if Override(w, next) || Profiles(w, next) {
      ProfileInOrder(w, next);
    } else {
      LinkEndsInOrder(w, next);
    }
  }

  lemma PickInOrder(w: World, next: World)
    requires Orderly(w) && Pick(w, next)
    ensures Orderly(next)
  {
  }

  lemma RestInOrder(w: World, next: World)
    requires Orderly(w) && (Start(w, next) || Pick(w, next) || Store(w, next))
    ensures Orderly(next)
  {
    if Pick(w, next) {
      PickInOrder(w, next);
    }
  }

  lemma DraftsInOrder(w: World, next: World)
    requires Orderly(w) && Drafts(w, next)
    ensures Orderly(next)
  {
  }

  lemma MiddleInOrder(w: World, next: World)
    requires Orderly(w) && (Pending(w, next) || Drafts(w, next))
    ensures Orderly(next)
  {
    if Drafts(w, next) {
      DraftsInOrder(w, next);
    }
  }

  lemma WorksInOrder(w: World, next: World)
    requires Orderly(w) && Works(w, next)
    ensures Orderly(next)
  {
    if Opening(w, next) {
      OpeningInOrder(w, next);
    } else if Closing(w, next) {
      ClosingInOrder(w, next);
    } else if Pending(w, next) || Drafts(w, next) {
      MiddleInOrder(w, next);
    } else {
      RestInOrder(w, next);
    }
  }

  // ---- One pass ----

  /** Whether the pass under way ends with the customer gone. */
  ghost predicate WillDelete(w: World) {
    !w.customer ||
    match w.pc
    case Idle => Link in w.stored && Finished(w)
    case Choose => Link in w.todo && Finished(w)
    case DeleteDrafts(seen, _, deleted) => if deleted then !Blocked(ListingOf(w)) else !Blocked(seen)
    case Confirm => !Blocked(ListingOf(w))
    case ReleaseSubjects(blocked) => !blocked
    case DeleteCustomer => true
    case DeleteOverride => false
    case DeleteProfile => false
    case Persist => false
    case _ => Finished(w)
  }

  /** No subscription is live any more when the pass comes to look for them. */
  predicate NoneLive(w: World) {
    w.pc.Idle? || w.pc.GetCustomer? || w.pc.CancelSubscriptions? || (w.pc.Choose? && Link in w.todo) ==> w.live == 0
  }

  lemma OpeningDecides(w: World, next: World)
    requires Inv(w) && Orderly(w) && NoneLive(w) && Opening(w, next)
    ensures WillDelete(next) == WillDelete(w) && NoneLive(next)
  {
  }

  /** Whatever is invoiced is a draft, which blocks. */
  lemma PendingDecides(w: World, next: World)
    requires Inv(w) && Orderly(w) && NoneLive(w) && Pending(w, next)
    ensures WillDelete(next) == WillDelete(w) && NoneLive(next)
  {
    if w.billable != [] {
      assert !Closed(next.invoices[|w.invoices|]);
    }
  }

  lemma DraftsDecide(w: World, next: World)
    requires Inv(w) && Orderly(w) && NoneLive(w) && Drafts(w, next)
    ensures WillDelete(next) == WillDelete(w) && NoneLive(next)
  {
    var k := w.pc.next;
    if k < |w.pc.seen.invoices| && ZeroDraft(w.pc.seen.invoices[k]) {
      assert !Closed(w.pc.seen.invoices[k]);
      assert !Closed(next.invoices[k]) && !Closed(w.invoices[k]);
    }
  }

  lemma ClosingDecides(w: World, next: World)
    requires Inv(w) && Orderly(w) && NoneLive(w) && Closing(w, next)
    ensures WillDelete(next) == WillDelete(w) && NoneLive(next)
  {
  }

  lemma RestDecides(w: World, next: World)
    requires Inv(w) && Orderly(w) && NoneLive(w) && (Start(w, next) || Pick(w, next))
    requires w.pc.Idle? ==> Link in w.stored
    ensures WillDelete(next) == WillDelete(w) && NoneLive(next)
  {
  }

  /** The verdict of a pass never changes while it goes on. */
  lemma PassDecides(w: World, next: World)
    requires Inv(w) && Orderly(w) && NoneLive(w) && Works(w, next) && !next.pc.Idle?
    requires w.pc.Idle? ==> Link in w.stored
    ensures WillDelete(next) == WillDelete(w) && NoneLive(next) && Inv(next) && Orderly(next)
  {
    WorksKeepsInv(w, next);
    WorksInOrder(w, next);
    if Opening(w, next) {
      OpeningDecides(w, next);
    } else if Pending(w, next) {
      PendingDecides(w, next);
    } else if Drafts(w, next) {
      DraftsDecide(w, next);
    } else if Closing(w, next) {
      ClosingDecides(w, next);
    } else {
      RestDecides(w, next);
    }
  }

  /** Consecutive states of a pass that never fails, with the environment at rest, up to the object being stored. */
  ghost predicate Pass(run: seq<World>) {
    && |run| >= 2 && Undisturbed(run) && Inv(run[0]) && Orderly(run[0])
    && (forall i :: 0 < i < |run| - 1 ==> !run[i].pc.Idle?) && run[|run| - 1].pc.Idle?
  }

  lemma {:induction false} PassGoesOn(run: seq<World>, n: nat)
    requires Pass(run) && NoneLive(run[0]) && n < |run| - 1 && (run[0].pc.Idle? ==> Link in run[0].stored)
    ensures Inv(run[n]) && Orderly(run[n]) && NoneLive(run[n]) && WillDelete(run[n]) == WillDelete(run[0])
    ensures n > 0 || !run[0].pc.Idle? ==> !run[n].pc.Idle?
  {
    if n > 0 {
      PassGoesOn(run, n - 1);
      assert WorksAt(run, n - 1) && !run[n].pc.Idle?;
      PassDecides(run[n - 1], run[n]);
    }
  }

  /**
   An uninterrupted pass deletes the customer if and only if nothing blocks it: seen from its start when no subscription
   is live, and in any case from the check for live subscriptions.
   */
  lemma PassDeletesExactly(run: seq<World>)
    requires Pass(run)
    requires (run[0].pc.Idle? && Link in run[0].stored && run[0].live == 0) || run[0].pc.ListSubscriptions?
    requires run[0].customer
    ensures !run[|run| - 1].customer <==> Finished(run[0])
  {
    var n := |run| - 2;
    PassGoesOn(run, n);
    assert WorksAt(run, n);
    StoredAtLast(run[n], run[n + 1]);
  }

  lemma OpeningGoesOn(w: World, next: World)
    requires Opening(w, next)
    ensures !next.pc.Idle?
  {
    if Customer(w, next) {
      LinkDoneGoesOn(w);
    } else if Subscriptions(w, next) {
      LinkDoneGoesOn(w);
    }
  }

  lemma LinkDoneGoesOn(w: World)
    ensures LinkDone(w).pc.Choose?
  {
  }

  lemma ClosingGoesOn(w: World, next: World)
    requires Closing(w, next)
    ensures !next.pc.Idle?
  {
  }

  lemma MiddleGoesOn(w: World, next: World)
    requires Pending(w, next) || Drafts(w, next)
    ensures !next.pc.Idle?
  {
  }

  /** A pass comes to rest by storing the object. */
  lemma StoredAtLast(w: World, next: World)
    requires Works(w, next) && !w.pc.Idle? && next.pc.Idle?
    ensures Store(w, next)
  {
    if Opening(w, next) {
      OpeningGoesOn(w, next);
    } else if Closing(w, next) {
      ClosingGoesOn(w, next);
    } else if Pending(w, next) || Drafts(w, next) {
      MiddleGoesOn(w, next);
    }
  }

  // ---- Every schedule ----

  /** The teardown is over: no finalizer is left, and with them customer, override and profile are gone. */
  predicate Over(w: World) {
    w.pc.Idle? && w.stored == {}
  }

  /** The calls left for the finalizer that runs. */
  function Running(w: World): nat {
    var n := |w.invoices|;
    match w.pc
    case GetCustomer => n + 7
    case CancelSubscriptions => n + 6
    case ListSubscriptions => n + 5
    case ListInvoices => n + 4
    case DeleteDrafts(_, next, _) => if next <= n then n - next + 3 else 3
    case ReleaseSubjects(_) => 2
    case DeleteCustomer => 1
    case DeleteOverride => 2
    case DeleteProfile => 1
    case _ => 0
  }

  /** The steps of a pass that has these finalizers to run yet. */
  function ToRun(todo: set<Finalizer>, n: nat): nat {
    (if Link in todo then n + 8 else 0) + if Profile in todo then 3 else 0
  }

  /** The profile finalizer waits, or may have to wait, for another pass. */
  predicate Waits(w: World) {
    if w.pc.Idle? then Link in w.stored && Profile in w.stored
    else Profile in w.held && !InProfile(w.pc) && (Profile in w.todo ==> Link in w.held)
  }

  /** At most so many steps are left, with nothing to wait for. */
  function StepsLeft(w: World): nat {
    (if w.pc.Idle? then if w.stored == {} then 0 else 3 + ToRun(w.stored, |w.invoices|)
     else Running(w) + ToRun(w.todo, |w.invoices|) + if w.pc.Persist? then 1 else 2)
    + if Waits(w) then 6 else 0
  }

  /** Nothing blocks, and the pass under way knows it. */
  ghost predicate Clear(w: World) {
    && Inv(w) && Orderly(w) && Finished(w)
    && (!w.pc.Idle? && Link in w.held && !InLink(w.pc) ==> Link in w.todo)
    && !w.pc.InvoicePending? && !w.pc.Relist? && !w.pc.Confirm?
    && (w.pc.DeleteDrafts? ==>
          !w.pc.deleted && !Blocked(w.pc.seen) && |w.pc.seen.invoices| == |w.invoices| && w.pc.next <= |w.invoices|)
    && (w.pc.ReleaseSubjects? ==> !w.pc.blocked)
  }

  lemma ClearCustomer(w: World, next: World)
    requires Clear(w) && Customer(w, next)
    ensures Clear(next) && StepsLeft(next) < StepsLeft(w)
  {
    WorksKeepsInv(w, next);
    CustomerInOrder(w, next);
  }

  lemma ClearSubscriptions(w: World, next: World)
    requires Clear(w) && (Cancel(w, next) || Subscriptions(w, next))
    ensures Clear(next) && StepsLeft(next) < StepsLeft(w)
  {
    WorksKeepsInv(w, next);
    SubscriptionsInOrder(w, next);
  }

  lemma ClearInvoices(w: World, next: World)
    requires Clear(w) && (Invoices(w, next) || Again(w, next))
    ensures Clear(next) && StepsLeft(next) < StepsLeft(w)
  {
    WorksKeepsInv(w, next);
    InvoicesInOrder(w, next);
  }

  lemma ClearOpening(w: World, next: World)
    requires Clear(w) && Opening(w, next)
    ensures Clear(next) && StepsLeft(next) < StepsLeft(w)
  {
    if Customer(w, next) {
      ClearCustomer(w, next);
    } else if Cancel(w, next) || Subscriptions(w, next) {
      ClearSubscriptions(w, next);
    } else {
      ClearInvoices(w, next);
    }
  }

  lemma ClearDrafts(w: World, next: World)
    requires Clear(w) && Drafts(w, next)
    ensures Clear(next) && StepsLeft(next) < StepsLeft(w)
  {
    WorksKeepsInv(w, next);
    WorksInOrder(w, next);
  }

  lemma ClearClosing(w: World, next: World)
    requires Clear(w) && Closing(w, next)
    ensures Clear(next) && StepsLeft(next) < StepsLeft(w)
  {
    WorksKeepsInv(w, next);
    WorksInOrder(w, next);
  }

  lemma ClearPick(w: World, next: World)
    requires Clear(w) && Pick(w, next)
    ensures Clear(next) && StepsLeft(next) < StepsLeft(w)
  {
    WorksKeepsInv(w, next);
    PickInOrder(w, next);
    SomeFinalizer(w.todo);
  }

  lemma ClearRest(w: World, next: World)
    requires Clear(w) && (Start(w, next) || Pick(w, next) || Store(w, next))
    ensures Clear(next) && StepsLeft(next) < StepsLeft(w)
  {
    if Pick(w, next) {
      ClearPick(w, next);
    } else {
      WorksKeepsInv(w, next);
      RestInOrder(w, next);
      SomeFinalizer(w.todo);
      SomeFinalizer(next.stored);
    }
  }

  lemma SomeFinalizer(fs: set<Finalizer>)
    ensures fs == {} <==> Link !in fs && Profile !in fs
  {
    if f :| f in fs {
      assert f == Link || f == Profile;
    }
  }

  lemma ClearStep(w: World, next: World)
    requires Clear(w) && Works(w, next)
    ensures Clear(next) && StepsLeft(next) < StepsLeft(w)
  {
    if Opening(w, next) {
      ClearOpening(w, next);
    } else if Drafts(w, next) {
      ClearDrafts(w, next);
    } else if Closing(w, next) {
      ClearClosing(w, next);
    } else {
      ClearRest(w, next);
    }
  }

  /** The controller is never stuck before the end. */
  lemma NotStuck(w: World) returns (next: World)
    requires Clear(w) && !Over(w)
    ensures Works(w, next)
  {
    SomeFinalizer(w.todo);
    match w.pc
    case Idle => next := w.(pc := Choose, held := w.stored, todo := w.stored);
    case Choose =>
      next := if Link in w.todo then w.(pc := GetCustomer, todo := w.todo - {Link})
              else if Profile in w.todo then w.(pc := DeleteOverride, todo := w.todo - {Profile})
              else w.(pc := Persist);
    case GetCustomer => next := if w.customer then w.(pc := CancelSubscriptions) else LinkDone(w);
    case CancelSubscriptions => next := w.(pc := ListSubscriptions);
    case ListSubscriptions => next := if !w.customer then LinkDone(w) else w.(pc := ListInvoices);
    case ListInvoices => next := w.(pc := DeleteDrafts(ListingOf(w), 0, false));
    case DeleteDrafts(seen, k, _) =>
      next := if k < |seen.invoices| then w.(pc := w.pc.(next := k + 1)) else w.(pc := ReleaseSubjects(false));
    case ReleaseSubjects(_) => next := w.(released := true, pc := DeleteCustomer);
    case DeleteCustomer => next := LinkDone(w.(customer := false));
    case DeleteOverride => next := w.(overrideGone := true, pc := DeleteProfile);
    case DeleteProfile => next := w.(profileGone := true, held := w.held - {Profile}, pc := Choose);
    case _ => next := w.(stored := w.held, pc := Idle);
  }

  lemma {:induction false} ScheduleAdvances(run: seq<World>, n: nat)
    requires Undisturbed(run) && Clear(run[0]) && n < |run|
    ensures Clear(run[n]) && StepsLeft(run[n]) + n <= StepsLeft(run[0])
  {
    if n > 0 {
      ScheduleAdvances(run, n - 1);
      assert WorksAt(run, n - 1);
      ClearStep(run[n - 1], run[n]);
    }
  }

  /**
   Once no subscription is live, no line is pending and every invoice is final, every schedule of calls and finalizers
   that is not interrupted comes to an end, within as many steps as there are invoices and twenty more; it can go on if
   and only if a finalizer is left, and ends with customer, override and profile gone.
   */
  lemma EveryScheduleEnds(run: seq<World>)
    requires Undisturbed(run) && Inv(run[0]) && Finished(run[0]) && run[0].pc.Idle?
    ensures |run| - 1 <= |run[0].invoices| + 20
    ensures var last := run[|run| - 1];
      && (Over(last) <==> !exists next :: Works(last, next))
      && (Over(last) ==> !last.customer && last.overrideGone && last.profileGone)
  {
    var last := run[|run| - 1];
    ScheduleAdvances(run, |run| - 1);
    if !Over(last) {
      var next := NotStuck(last);
    }
  }

  // ---- No dead ends ----

  lemma Prefixed(w: World, next: World, rest: seq<World>)
    requires Step(w, next) && From(next, rest)
    ensures From(w, [w] + rest) && ([w] + rest)[|rest|] == rest[|rest| - 1]
  {
    var run := [w] + rest;
    forall i | 0 <= i < |run| - 1 ensures StepAt(run, i) {
      if i > 0 {
        assert StepAt(rest, i - 1);
      }
    }
  }

  /** From where nothing blocks, the controller can finish. */
  lemma {:induction false} Finish(w: World) returns (run: seq<World>)
    requires Clear(w)
    ensures Undisturbed(run) && run[0] == w && Over(run[|run| - 1]) && Inv(run[|run| - 1])
    decreases StepsLeft(w)
  {
    if Over(w) {
      run := [w];
    } else {
      var next := NotStuck(w);
      ClearStep(w, next);
      var rest := Finish(next);
      run := [w] + rest;
      forall i | 0 <= i < |run| - 1 ensures WorksAt(run, i) {
        if i > 0 {
          assert WorksAt(rest, i - 1);
        }
      }
    }
  }

  lemma WorksAreSteps(run: seq<World>)
    requires Undisturbed(run)
    ensures From(run[0], run)
  {
    forall i | 0 <= i < |run| - 1 ensures StepAt(run, i) {
      assert WorksAt(run, i);
    }
  }

  /** OpenMeter can settle what is left: subscriptions end, lines are dropped or invoiced, and invoices become final. */
  lemma {:induction false} Settle(w: World, closed: nat) returns (run: seq<World>)
    requires Inv(w) && closed <= |w.invoices| && AllClosed(w.invoices[..closed])
    ensures From(w, run) && Finished(run[|run| - 1]) && Inv(run[|run| - 1])
    decreases w.live, w.future, if w.billable == [] then 0 else 1, |w.invoices| - closed
  {
    var next, k := w, closed;
    if w.live > 0 {
      next := w.(live := w.live - 1);
    } else if w.future > 0 {
      next := w.(future := w.future - 1);
    } else if w.billable != [] {
      next := Cut(w);
      assert next.invoices[..closed] == w.invoices[..closed];
    } else if closed == |w.invoices| {
      assert w.invoices[..closed] == w.invoices;
      run := [w];
      return;
    } else if Closed(w.invoices[closed]) {
      assert w.invoices[..closed + 1] == w.invoices[..closed] + [w.invoices[closed]];
      run := Settle(w, closed + 1);
      return;
    } else {
      var inv := w.invoices[closed];
      var settled := inv.(status := if inv.status.Deleting? then Deleted else Final);
      next, k := w.(invoices := w.invoices[closed := settled]), closed + 1;
      assert next.invoices[..k] == w.invoices[..closed] + [settled];
    }
    assert Background(w, next);
    BackgroundKeeps(w, next);
    var rest := Settle(next, k);
    Prefixed(w, next, rest);
    run := [w] + rest;
  }

  lemma Joined(a: seq<World>, b: seq<World>, w: World)
    requires From(w, a) && From(a[|a| - 1], b)
    ensures From(w, a + b[1..]) && (a + b[1..])[|a + b[1..]| - 1] == b[|b| - 1]
  {
    var run := a + b[1..];
    forall i | 0 <= i < |run| - 1 ensures StepAt(run, i) {
      if i < |a| - 1 {
        assert StepAt(a, i);
      } else {
        assert StepAt(b, i - (|a| - 1));
      }
    }
  }

  /** When nothing blocks, the controller, restarted at most, finishes without any help. */
  lemma FinishesAlone(w: World) returns (run: seq<World>)
    requires Inv(w) && Finished(w)
    ensures Undisturbed(run) && Crash(w, run[0])
    ensures var last := run[|run| - 1];
      Over(last) && !last.customer && last.overrideGone && last.profileGone && Inv(last)
  {
    var idle := w.(pc := Idle);
    CrashKeeps(w, idle);
    run := Finish(idle);
  }

  /**
   From every state the invariant allows, whatever failed before, OpenMeter can settle what is left and the controller
   can then finish: customer, override and profile are gone and no finalizer is left.
   */
  lemma NoDeadEnd(w: World) returns (run: seq<World>)
    requires Inv(w)
    ensures From(w, run)
    ensures var last := run[|run| - 1];
      Over(last) && !last.customer && last.overrideGone && last.profileGone && Inv(last)
  {
    var settling := Settle(w, 0);
    var settled := settling[|settling| - 1];
    var finishing := FinishesAlone(settled);
    WorksAreSteps(finishing);
    Prefixed(settled, finishing[0], finishing);
    Joined(settling, [settled] + finishing, w);
    run := settling + ([settled] + finishing)[1..];
  }
}
