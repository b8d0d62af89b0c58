/**
 Account teardown: two finalizers walk OpenMeter towards a deleted customer, one API call at a time, while OpenMeter
 moves on by itself. Any call may fail and any pass may be cut; a retry walks the same steps again.

 The model excludes the force-delete annotation. An account being deleted gets no new subscription.
 */
module Teardown {
  import opened Common

  datatype Status = Draft | Open | Final | Deleting | Deleted

  /** Once cut, an invoice's total does not change. */
  datatype Invoice = Invoice(status: Status, total: real)

  datatype Finalizer = Link | Profile

  /** An answer of ListInvoices: whether a gathering invoice holds pending lines, and the invoices themselves. */
  datatype Listing = Listing(gathering: bool, invoices: seq<Invoice>)

  /** The next call of the pass under way. */
  datatype Pc =
    | Idle
    | Choose
    | GetCustomer
    | CancelSubscriptions
    | ListSubscriptions
    | ListInvoices
    | InvoicePending
    | Relist
    | DeleteDrafts(seen: Listing, next: nat, deleted: bool)
    | Confirm
    | ReleaseSubjects(blocked: bool)
    | DeleteCustomer
    | DeleteOverride
    | DeleteProfile
    | Persist

  /** late records that a line became billable after its pass had invoiced, or after the keys were released. */
  datatype World = World(
    customer: bool, released: bool, live: nat, billable: seq<real>, future: nat, invoices: seq<Invoice>,
    overrideGone: bool, profileGone: bool, late: bool,
    stored: set<Finalizer>, pc: Pc, held: set<Finalizer>, todo: set<Finalizer>)

  function Sum(lines: seq<real>): real {
    if lines == [] then 0.0 else Sum(lines[..|lines| - 1]) + lines[|lines| - 1]
  }

  predicate Counted(inv: Invoice) {
    !inv.status.Deleting? && !inv.status.Deleted?
  }

  function Invoiced(invoices: seq<Invoice>): real {
    if invoices == [] then 0.0
    else
      var n := |invoices| - 1;
      Invoiced(invoices[..n]) + if Counted(invoices[n]) then invoices[n].total else 0.0
  }

  /** What the customer owes: lines not yet invoiced, and invoices that are not deleted. */
  function Owed(w: World): real {
    Sum(w.billable) + Invoiced(w.invoices)
  }

  /** invoiceBlocksCustomerDeletion says no. */
  predicate Closed(inv: Invoice) {
    inv.status.Final? || inv.status.Deleted?
  }

  ghost predicate AllClosed(invoices: seq<Invoice>) {
    forall i :: 0 <= i < |invoices| ==> Closed(invoices[i])
  }

  function Gathering(w: World): bool {
    w.billable != [] || w.future > 0
  }

  function ListingOf(w: World): Listing {
    Listing(Gathering(w), w.invoices)
  }

  predicate ZeroDraft(inv: Invoice) {
    inv.status.Draft? && inv.total == 0.0
  }

  ghost predicate Blocked(seen: Listing) {
    seen.gathering || !AllClosed(seen.invoices)
  }

  // ---- What OpenMeter does by itself ----

  predicate Advances(a: Status, b: Status) {
    match a
    case Draft => b.Open? || b.Final?
    case Open => b.Final?
    case Deleting => b.Deleted?
    case Final => false
    case Deleted => false
  }

  /** A live subscription adds a line. */
  ghost predicate Accrue(w: World, next: World) {
    w.live > 0 && exists x :: next == w.(billable := w.billable + [x]) || next == w.(future := w.future + 1)
  }

  /** A line that was not billable yet becomes billable. */
  ghost predicate Mature(w: World, next: World) {
    w.future > 0 && exists x :: next == Matured(w, x)
  }

  function Matured(w: World, x: real): World
    requires w.future > 0
  {
    w.(future := w.future - 1, billable := w.billable + [x], late := w.late || w.released || Billed(w.pc))
  }

  /** A subscription ends, a line that never becomes billable is dropped, lines are invoiced, an invoice advances. */
  ghost predicate Background(w: World, next: World) {
    || (w.live > 0 && next == w.(live := w.live - 1))
    || (w.future > 0 && next == w.(future := w.future - 1))
    || (w.billable != [] && next == Cut(w))
    || exists i, status :: 0 <= i < |w.invoices| && Advances(w.invoices[i].status, status)
         && next == w.(invoices := w.invoices[i := w.invoices[i].(status := status)])
  }

  /** The billable lines move onto a new draft. */
  function Cut(w: World): World {
    w.(billable := [], invoices := w.invoices + [Invoice(Draft, Sum(w.billable))])
  }

  // ---- What the controller does ----

  /** A pass starts from the stored object, with its finalizers to run in any order. */
  ghost predicate Start(w: World, next: World) {
    w.pc.Idle? && w.stored != {} && next == w.(pc := Choose, held := w.stored, todo := w.stored)
  }

  /** The next finalizer to run; the profile finalizer waits while the customer link is on the object. */
  ghost predicate Pick(w: World, next: World) {
    w.pc.Choose? &&
    (|| (Link in w.todo && next == w.(pc := GetCustomer, todo := w.todo - {Link}))
     || (Profile in w.todo && Link !in w.held && next == w.(pc := DeleteOverride, todo := w.todo - {Profile}))
     || (Profile in w.todo && Link in w.held && next == w.(todo := w.todo - {Profile}))
     || (w.todo == {} && next == w.(pc := Persist)))
  }

  /** The running finalizer fails or waits: it stays on the object and the pass goes on. */
  ghost predicate GiveUp(w: World, next: World) {
    !w.pc.Idle? && !w.pc.Choose? && !w.pc.Persist? && next == w.(pc := Choose)
  }

  /** The process stops. */
  ghost predicate Crash(w: World, next: World) {
    next == w.(pc := Idle)
  }

  ghost predicate Store(w: World, next: World) {
    w.pc.Persist? && next == w.(stored := w.held, pc := Idle)
  }

  function LinkDone(w: World): World {
    w.(held := w.held - {Link}, pc := Choose)
  }

  ghost predicate Customer(w: World, next: World) {
    w.pc.GetCustomer? && next == if w.customer then w.(pc := CancelSubscriptions) else LinkDone(w)
  }

  /** Each call of CancelSubscriptions ends one subscription; it is done when it has called for all it listed. */
  ghost predicate Cancel(w: World, next: World) {
    w.pc.CancelSubscriptions? && (next == w.(pc := ListSubscriptions) || (w.live > 0 && next == w.(live := w.live - 1)))
  }

  /** The finalizer goes on only when it sees no live subscription. */
  ghost predicate Subscriptions(w: World, next: World) {
    w.pc.ListSubscriptions? &&
    next == if !w.customer then LinkDone(w) else if w.live == 0 then w.(pc := ListInvoices) else w.(pc := Choose)
  }

  ghost predicate Invoices(w: World, next: World) {
    w.pc.ListInvoices? &&
    next == if Gathering(w) then w.(pc := InvoicePending) else w.(pc := DeleteDrafts(ListingOf(w), 0, false))
  }

  /** The invoicePendingLines action; with nothing billable it does nothing. */
  ghost predicate Pending(w: World, next: World) {
    w.pc.InvoicePending? && next == (if w.billable == [] then w else Cut(w)).(pc := Relist)
  }

  ghost predicate Again(w: World, next: World) {
    w.pc.Relist? && next == w.(pc := DeleteDrafts(ListingOf(w), 0, false))
  }

  /** The loop over the listed invoices deletes each zero-total draft, unless it has moved on and OpenMeter refuses. */
  ghost predicate Drafts(w: World, next: World) {
    w.pc.DeleteDrafts? &&
    var k := w.pc.next;
    if k < |w.pc.seen.invoices| then
      if !ZeroDraft(w.pc.seen.invoices[k]) then next == w.(pc := w.pc.(next := k + 1))
      else
        && k < |w.invoices| && w.invoices[k].status.Draft?
        && next == w.(pc := w.pc.(next := k + 1, deleted := true),
                      invoices := w.invoices[k := w.invoices[k].(status := Deleting)])
    else if w.pc.deleted then next == w.(pc := Confirm)
    else next == w.(pc := ReleaseSubjects(Blocked(w.pc.seen)))
  }

  ghost predicate Look(w: World, next: World) {
    w.pc.Confirm? && next == w.(pc := ReleaseSubjects(Blocked(ListingOf(w))))
  }

  ghost predicate Release(w: World, next: World) {
    w.pc.ReleaseSubjects? && next == w.(released := true, pc := if w.pc.blocked then Choose else DeleteCustomer)
  }

  ghost predicate Delete(w: World, next: World) {
    w.pc.DeleteCustomer? && next == LinkDone(w.(customer := false))
  }

  ghost predicate Override(w: World, next: World) {
    w.pc.DeleteOverride? && next == w.(overrideGone := true, pc := DeleteProfile)
  }

  ghost predicate Profiles(w: World, next: World) {
    w.pc.DeleteProfile? && next == w.(profileGone := true, held := w.held - {Profile}, pc := Choose)
  }

  ghost predicate Bookkeeping(w: World, next: World) {
    Start(w, next) || Pick(w, next) || GiveUp(w, next) || Crash(w, next) || Store(w, next)
  }

  ghost predicate Opening(w: World, next: World) {
    Customer(w, next) || Cancel(w, next) || Subscriptions(w, next) || Invoices(w, next) || Again(w, next)
  }

  ghost predicate Closing(w: World, next: World) {
    Look(w, next) || Release(w, next) || Delete(w, next) || Override(w, next) || Profiles(w, next)
  }

  ghost predicate Call(w: World, next: World) {
    Opening(w, next) || Pending(w, next) || Drafts(w, next) || Closing(w, next)
  }

  ghost predicate Step(w: World, next: World) {
    Bookkeeping(w, next) || Call(w, next) || Background(w, next) || Accrue(w, next) || Mature(w, next)
  }

  ghost predicate Init(w: World) {
    && w.customer && !w.released && !w.overrideGone && !w.profileGone && !w.late
    && w.pc.Idle? && w.stored == {Link, Profile}
  }

  // ---- What every step keeps ----

  /** Past the check for live subscriptions. */
  predicate Ended(pc: Pc) {
    pc.ListInvoices? || pc.InvoicePending? || Billed(pc)
  }

  /** Past invoicing the pending lines. */
  predicate Billed(pc: Pc) {
    pc.Relist? || pc.DeleteDrafts? || pc.Confirm? || pc.ReleaseSubjects? || pc.DeleteCustomer?
  }

  /** Nothing left that could produce an invoice, and every invoice final. */
  ghost predicate Finished(w: World) {
    w.live == 0 && w.billable == [] && w.future == 0 && AllClosed(w.invoices)
  }

  /**
   An earlier listing still tells the truth about totals and final invoices, and about all there is when nothing
   was gathering.
   */
  ghost predicate Current(seen: Listing, w: World) {
    && |seen.invoices| <= |w.invoices|
    && (forall i :: 0 <= i < |seen.invoices| ==>
          seen.invoices[i].total == w.invoices[i].total && (Closed(seen.invoices[i]) ==> Closed(w.invoices[i])))
    && (!seen.gathering ==> w.billable == [] && w.future == 0 && |w.invoices| == |seen.invoices|)
  }

  ghost predicate Inv(w: World) {
    && (w.released ==> w.live == 0 && (w.billable == [] || w.late))
    && (!w.customer ==> Finished(w))
    && (Link !in w.stored ==> !w.customer)
    && (!w.pc.Idle? && Link !in w.held ==> !w.customer)
    && (w.overrideGone || w.profileGone ==> !w.customer)
    && (Ended(w.pc) ==> w.live == 0)
    && (Billed(w.pc) ==> w.billable == [] || w.late)
    && (w.pc.DeleteDrafts? ==> Current(w.pc.seen, w))
    && (w.pc.DeleteCustomer? || (w.pc.ReleaseSubjects? && !w.pc.blocked) ==> Finished(w))
    && (w.pc.DeleteOverride? || w.pc.DeleteProfile? ==> Link !in w.held)
    && (w.pc.DeleteProfile? || Profile !in w.stored || (!w.pc.Idle? && Profile !in w.held) ==> w.overrideGone)
    && (Profile !in w.stored || (!w.pc.Idle? && Profile !in w.held) ==> w.profileGone)
  }

  lemma InitInv(w: World)
    requires Init(w)
    ensures Inv(w)
  {
  }

  /** The invariant holds again, no subscription appears and the customer stays gone. */
  ghost predicate Kept(w: World, next: World) {
    Inv(next) && next.live <= w.live && (!w.customer ==> !next.customer)
  }

  /** No subscription and no line appears. */
  ghost predicate Shrinks(w: World, next: World) {
    next.live <= w.live && next.future <= w.future && (w.billable == [] ==> next.billable == [])
  }

  lemma StartKeeps(w: World, next: World)
    requires Inv(w) && Start(w, next)
    ensures Kept(w, next) && Shrinks(w, next) && Owed(next) == Owed(w)
  {
  }

  lemma PickKeeps(w: World, next: World)
    requires Inv(w) && Pick(w, next)
    ensures Kept(w, next) && Shrinks(w, next) && Owed(next) == Owed(w)
  {
  }

  lemma GiveUpKeeps(w: World, next: World)
    requires Inv(w) && GiveUp(w, next)
    ensures Kept(w, next) && Shrinks(w, next) && Owed(next) == Owed(w)
  {
  }

  lemma CrashKeeps(w: World, next: World)
    requires Inv(w) && Crash(w, next)
    ensures Kept(w, next) && Shrinks(w, next) && Owed(next) == Owed(w)
  {
  }

  lemma StoreKeeps(w: World, next: World)
    requires Inv(w) && Store(w, next)
    ensures Kept(w, next) && Shrinks(w, next) && Owed(next) == Owed(w)
  {
  }

  lemma BookkeepingKeeps(w: World, next: World)
    requires Inv(w) && Bookkeeping(w, next)
    ensures Kept(w, next) && Shrinks(w, next) && Owed(next) == Owed(w)
  {
    if Start(w, next) {
      StartKeeps(w, next);
    } else if Pick(w, next) {
      PickKeeps(w, next);
    } else if GiveUp(w, next) {
      GiveUpKeeps(w, next);
    } else if Crash(w, next) {
      CrashKeeps(w, next);
    } else {
      StoreKeeps(w, next);
    }
  }

  lemma AccrueKeeps(w: World, next: World)
    requires Inv(w) && Accrue(w, next)
    ensures Kept(w, next)
  {
  }

  lemma MatureKeeps(w: World, next: World)
    requires Inv(w) && Mature(w, next)
    ensures Kept(w, next)
  {
  }

  lemma CutOwed(w: World)
    ensures Owed(Cut(w)) == Owed(w)
  {
    var more := w.invoices + [Invoice(Draft, Sum(w.billable))];
    assert more[..|w.invoices|] == w.invoices;
  }

  lemma {:induction false} StatusOwed(invoices: seq<Invoice>, i: nat, inv: Invoice)
    requires i < |invoices| && inv.total == invoices[i].total
    requires (Counted(inv) == Counted(invoices[i]) || inv.total == 0.0)
    ensures Invoiced(invoices[i := inv]) == Invoiced(invoices)
  {
    var n := |invoices| - 1;
    if i < n {
      StatusOwed(invoices[..n], i, inv);
      assert invoices[i := inv][..n] == invoices[..n][i := inv];
    } else {
      assert invoices[i := inv][..n] == invoices[..n];
    }
  }

  lemma BackgroundKeeps(w: World, next: World)
    requires Inv(w) && Background(w, next)
    ensures Kept(w, next) && Shrinks(w, next) && Owed(next) == Owed(w)
  {
    if w.billable != [] && next == Cut(w) {
      CutOwed(w);
    } else if i, status :| 0 <= i < |w.invoices| && Advances(w.invoices[i].status, status)
                          && next == w.(invoices := w.invoices[i := w.invoices[i].(status := status)]) {
      StatusOwed(w.invoices, i, w.invoices[i].(status := status));
    }
  }

  /** What a call of the controller may do, and only when. */
  ghost predicate Safe(w: World, next: World) {
    && (next.invoices != w.invoices ==>
          || (&& w.live == 0 && (!w.released || w.late)
              && next.invoices == w.invoices + [Invoice(Draft, Sum(w.billable))])
          || exists i :: 0 <= i < |w.invoices| && ZeroDraft(w.invoices[i])
               && next.invoices == w.invoices[i := w.invoices[i].(status := Deleting)])
    && (next.released && !w.released ==> w.live == 0 && (w.billable == [] || w.late))
    && (w.customer && !next.customer ==> Finished(w))
    && (next.overrideGone && !w.overrideGone ==> Link !in w.held && !w.customer)
    && (next.profileGone && !w.profileGone ==> Link !in w.held && !w.customer)
    && Owed(next) == Owed(w)
  }

  /** A listed zero-total draft that is still a draft. */
  ghost predicate Deletes(w: World) {
    && w.pc.DeleteDrafts? && w.pc.next < |w.pc.seen.invoices| && ZeroDraft(w.pc.seen.invoices[w.pc.next])
  }

  lemma DraftDeleted(w: World, next: World)
    requires Inv(w) && Drafts(w, next) && Deletes(w)
    ensures Kept(w, next) && Shrinks(w, next) && Safe(w, next)
  {
    var k := w.pc.next;
    StatusOwed(w.invoices, k, w.invoices[k].(status := Deleting));
    assert ZeroDraft(w.invoices[k]);
  }

  lemma DraftPassed(w: World, next: World)
    requires Inv(w) && Drafts(w, next) && !Deletes(w)
    ensures Kept(w, next) && Shrinks(w, next) && Safe(w, next)
  {
  }

  lemma DraftsKeeps(w: World, next: World)
    requires Inv(w) && Drafts(w, next)
    ensures Kept(w, next) && Shrinks(w, next) && Safe(w, next)
  {
    if Deletes(w) {
      DraftDeleted(w, next);
    } else {
      DraftPassed(w, next);
    }
  }

  lemma PendingKeeps(w: World, next: World)
    requires Inv(w) && Pending(w, next)
    ensures Kept(w, next) && Shrinks(w, next) && Safe(w, next)
  {
    if w.billable != [] {
      CutOwed(w);
    }
  }

  lemma CustomerKeeps(w: World, next: World)
    requires Inv(w) && Customer(w, next)
    ensures Kept(w, next) && Shrinks(w, next) && Safe(w, next)
  {
  }

  lemma CancelKeeps(w: World, next: World)
    requires Inv(w) && Cancel(w, next)
    ensures Kept(w, next) && Shrinks(w, next) && Safe(w, next)
  {
  }

  lemma SubscriptionsKeeps(w: World, next: World)
    requires Inv(w) && Subscriptions(w, next)
    ensures Kept(w, next) && Shrinks(w, next) && Safe(w, next)
  {
  }

  lemma InvoicesKeeps(w: World, next: World)
    requires Inv(w) && Invoices(w, next)
    ensures Kept(w, next) && Shrinks(w, next) && Safe(w, next)
  {
  }

  lemma AgainKeeps(w: World, next: World)
    requires Inv(w) && Again(w, next)
    ensures Kept(w, next) && Shrinks(w, next) && Safe(w, next)
  {
  }

  lemma OpeningKeeps(w: World, next: World)
    requires Inv(w) && Opening(w, next)
    ensures Kept(w, next) && Shrinks(w, next) && Safe(w, next)
  {
    if Customer(w, next) {
      CustomerKeeps(w, next);
    } else if Cancel(w, next) {
      CancelKeeps(w, next);
    } else if Subscriptions(w, next) {
      SubscriptionsKeeps(w, next);
    } else if Invoices(w, next) {
      InvoicesKeeps(w, next);
    } else {
      AgainKeeps(w, next);
    }
  }

  lemma LookKeeps(w: World, next: World)
    requires Inv(w) && Look(w, next)
    ensures Kept(w, next) && Shrinks(w, next) && Safe(w, next)
  {
  }

  lemma ReleaseKeeps(w: World, next: World)
    requires Inv(w) && Release(w, next)
    ensures Kept(w, next) && Shrinks(w, next) && Safe(w, next)
  {
  }

  lemma DeleteKeeps(w: World, next: World)
    requires Inv(w) && Delete(w, next)
    ensures Kept(w, next) && Shrinks(w, next) && Safe(w, next)
  {
  }

  lemma OverrideKeeps(w: World, next: World)
    requires Inv(w) && Override(w, next)
    ensures Kept(w, next) && Shrinks(w, next) && Safe(w, next)
  {
  }

  lemma ProfilesKeeps(w: World, next: World)
    requires Inv(w) && Profiles(w, next)
    ensures Kept(w, next) && Shrinks(w, next) && Safe(w, next)
  {
  }

  lemma ClosingKeeps(w: World, next: World)
    requires Inv(w) && Closing(w, next)
    ensures Kept(w, next) && Shrinks(w, next) && Safe(w, next)
  {
    if Look(w, next) {
      LookKeeps(w, next);
    } else if Release(w, next) {
      ReleaseKeeps(w, next);
    } else if Delete(w, next) {
      DeleteKeeps(w, next);
    } else if Override(w, next) {
      OverrideKeeps(w, next);
    } else {
      ProfilesKeeps(w, next);
    }
  }

  lemma CallKeeps(w: World, next: World)
    requires Inv(w) && Call(w, next)
    ensures Kept(w, next) && Shrinks(w, next) && Safe(w, next)
  {
    if Opening(w, next) {
      OpeningKeeps(w, next);
    } else if Pending(w, next) {
      PendingKeeps(w, next);
    } else if Drafts(w, next) {
      DraftsKeeps(w, next);
    } else {
      ClosingKeeps(w, next);
    }
  }

  // ---- Whole runs ----

  ghost predicate Run(run: seq<World>) {
    run != [] && Init(run[0]) && forall i :: 0 <= i < |run| - 1 ==> StepAt(run, i)
  }

  ghost predicate StepAt(run: seq<World>, i: nat)
    requires i < |run| - 1
  {
    Step(run[i], run[i + 1])
  }

  /** The line a step makes billable, if it makes one. */
  ghost function Line(w: World, next: World): real {
    if Accrue(w, next) || Mature(w, next) then Sum(next.billable) - Sum(w.billable) else 0.0
  }

  lemma StepKeeps(w: World, next: World)
    requires Inv(w) && Step(w, next)
    ensures Kept(w, next) && Owed(next) == Owed(w) + Line(w, next)
    ensures Accrue(w, next) || Mature(w, next) || Shrinks(w, next)
  {
    if Accrue(w, next) {
      AccrueKeeps(w, next);
    } else if Mature(w, next) {
      MatureKeeps(w, next);
    } else if Call(w, next) {
      CallKeeps(w, next);
    } else if Bookkeeping(w, next) {
      BookkeepingKeeps(w, next);
    } else {
      BackgroundKeeps(w, next);
    }
  }

  lemma {:induction false} RunKeeps(run: seq<World>, n: nat)
    requires Run(run) && n < |run|
    ensures Inv(run[n])
  {
    if n > 0 {
      RunKeeps(run, n - 1);
      assert StepAt(run, n - 1);
      StepKeeps(run[n - 1], run[n]);
    } else {
      InitInv(run[0]);
    }
  }

  /** In every run, every call of the controller is safe. */
  lemma EveryCallSafe(run: seq<World>, i: nat)
    requires Run(run) && i < |run| - 1 && Call(run[i], run[i + 1])
    ensures Safe(run[i], run[i + 1])
  {
    RunKeeps(run, i);
    CallKeeps(run[i], run[i + 1]);
  }

  /** The lines that became billable between two states of a run. */
  ghost function Lines(run: seq<World>, i: nat, j: nat): real
    requires i <= j < |run|
  {
    if i == j then 0.0 else Lines(run, i, j - 1) + Line(run[j - 1], run[j])
  }

  /** One step of a run changes what is owed by its line. */
  lemma LineOwed(run: seq<World>, j: nat)
    requires Run(run) && 0 < j < |run|
    ensures Owed(run[j]) == Owed(run[j - 1]) + Line(run[j - 1], run[j]) && run[j].live <= run[j - 1].live
  {
    RunKeeps(run, j - 1);
    assert StepAt(run, j - 1);
    StepKeeps(run[j - 1], run[j]);
  }

  /** Every change in what is owed is a line that became billable: invoicing, deleting and retrying change nothing. */
  lemma {:induction false} OwedAccounted(run: seq<World>, i: nat, j: nat)
    requires Run(run) && i <= j < |run|
    ensures Owed(run[j]) == Owed(run[i]) + Lines(run, i, j) && run[j].live <= run[i].live
  {
    if i < j {
      OwedAccounted(run, i, j - 1);
      LineOwed(run, j);
    }
  }

  /** Once no subscription is live and no line is left to become billable, what is owed never changes again. */
  lemma {:induction false} OwedConserved(run: seq<World>, i: nat, j: nat)
    requires Run(run) && i <= j < |run| && run[i].live == 0 && run[i].future == 0
    ensures run[j].live == 0 && run[j].future == 0 && Owed(run[j]) == Owed(run[i])
  {
    if i < j {
      OwedConserved(run, i, j - 1);
      RunKeeps(run, j - 1);
      assert StepAt(run, j - 1);
      StepKeeps(run[j - 1], run[j]);
      NoMoreLines(run[j - 1], run[j]);
    }
  }

  lemma NoMoreLines(w: World, next: World)
    requires Inv(w) && Step(w, next) && w.live == 0 && w.future == 0
    ensures Kept(w, next) && Shrinks(w, next) && !Accrue(w, next) && !Mature(w, next)
  {
    StepKeeps(w, next);
  }

  /** In every reachable state: without the finalizers nothing is left to bill; the profile outlives the customer. */
  lemma ReachableSafe(run: seq<World>, n: nat)
    requires Run(run) && n < |run|
    ensures Link !in run[n].stored || !run[n].customer ==> Finished(run[n]) && !run[n].customer
    ensures Profile !in run[n].stored ==> run[n].overrideGone && run[n].profileGone
    ensures run[n].overrideGone || run[n].profileGone ==> Finished(run[n])
    ensures run[n].released ==> run[n].live == 0 && (run[n].billable == [] || run[n].late)
  {
    RunKeeps(run, n);
  }

  // ---- Billing after the keys are released ----

  /** Consecutive states from w on. */
  ghost predicate From(w: World, run: seq<World>) {
    run != [] && run[0] == w && forall i :: 0 <= i < |run| - 1 ==> StepAt(run, i)
  }

  /** The last call of the run invoices lines although the keys are released. */
  ghost predicate BillsLate(run: seq<World>) {
    |run| >= 2 &&
    (var w := run[|run| - 2]; w.released && w.billable != [] && w.pc.InvoicePending? && Pending(w, run[|run| - 1]))
  }

  /** Nothing is left that could be invoiced. */
  predicate Spent(w: World) {
    w.live == 0 && w.billable == [] && w.future == 0
  }

  lemma SpentStays(w: World, next: World)
    requires Inv(w) && Step(w, next) && Spent(w)
    ensures Inv(next) && Spent(next)
  {
    NoMoreLines(w, next);
  }

  lemma {:induction false} SpentRun(w: World, run: seq<World>, n: nat)
    requires Inv(w) && From(w, run) && Spent(w) && n < |run|
    ensures Inv(run[n]) && Spent(run[n])
  {
    if n > 0 {
      SpentRun(w, run, n - 1);
      assert StepAt(run, n - 1);
      SpentStays(run[n - 1], run[n]);
    }
  }

  /** A pass, started afresh, comes to invoice what has become billable. */
  lemma NextPass(w: World) returns (run: seq<World>)
    requires Inv(w) && w.released && w.customer && w.billable != []
    ensures From(w, run) && BillsLate(run)
  {
    var idle := w.(pc := Idle);
    var choose := idle.(pc := Choose, held := w.stored, todo := w.stored);
    var get := choose.(pc := GetCustomer, todo := w.stored - {Link});
    var cancel, list := get.(pc := CancelSubscriptions), get.(pc := ListSubscriptions);
    var invoices, pending := get.(pc := ListInvoices), get.(pc := InvoicePending);
    var done := Cut(pending).(pc := Relist);
    run := [w, idle, choose, get, cancel, list, invoices, pending, done];
    assert Crash(w, idle) && Start(idle, choose) && Pick(choose, get);
    assert Customer(get, cancel) && Cancel(cancel, list) && Subscriptions(list, invoices);
    assert Invoices(invoices, pending) && Pending(pending, done);
    forall i | 0 <= i < |run| - 1 ensures StepAt(run, i) {
    }
  }

  /**
   Once the keys are released, a later pass can still come to invoice lines, whose usage is then computed without the
   keys, if and only if a line was left that is billable or can become so.
   */
  lemma LateBillingExactly(w: World)
    requires Inv(w) && w.released
    ensures (exists run :: From(w, run) && BillsLate(run)) <==> w.billable != [] || w.future > 0
  {
    if w.billable != [] {
      var run := NextPass(w);
    } else if w.future > 0 {
      var matured := Matured(w, 0.0);
      assert Mature(w, matured);
      MatureKeeps(w, matured);
      var rest := NextPass(matured);
      Prepended(w, matured, rest);
    } else if run :| From(w, run) && BillsLate(run) {
      SpentRun(w, run, |run| - 2);
    }
  }

  lemma Prepended(w: World, next: World, rest: seq<World>)
    requires Step(w, next) && From(next, rest) && BillsLate(rest)
    ensures From(w, [w] + rest) && BillsLate([w] + rest)
  {
    var run := [w] + rest;
    forall i | 0 <= i < |run| - 1 ensures StepAt(run, i) {
      if i > 0 {
        assert StepAt(rest, i - 1);
      }
    }
  }
}
