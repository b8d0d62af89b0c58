/**
 PrepareInvoicesForCustomerDeletion on its own, with OpenMeter otherwise quiet: pending lines are invoiced, zero-total
 drafts are deleted, and exactly what still blocks the customer's deletion is reported.
 */
module InvoicePreparation {
  import opened Common
  import opened Teardown

  /** What deleting invoice i leads to: the deletion is done, or still under way, when the invoices are listed again. */
  function Dropped(inv: Invoice, done: bool): Invoice {
    if ZeroDraft(inv) then inv.(status := if done then Deleted else Deleting) else inv
  }

  /** The blocking invoices among the first n, in order. */
  function Blocking(invoices: seq<Invoice>, n: nat): (r: seq<nat>)
    requires n <= |invoices|
    ensures forall i :: i in r <==> 0 <= i < n && !Closed(invoices[i])
  {
    if n == 0 then [] else Blocking(invoices, n - 1) + if Closed(invoices[n - 1]) then [] else [n - 1]
  }

  class Ledger {
    var billable: seq<real>
    /** Lines that are not billable yet. */
    var future: nat
    var invoices: seq<Invoice>

    constructor (billable: seq<real>, future: nat, invoices: seq<Invoice>)
      ensures this.billable == billable && this.future == future && this.invoices == invoices
    {
      this.billable, this.future, this.invoices := billable, future, invoices;
    }

    function Owing(): real
      reads this
    {
      Sum(billable) + Invoiced(invoices)
    }

    /** The invoicePendingLines action. */
    method InvoicePendingLines()
      modifies this`billable, this`invoices
      ensures Owing() == old(Owing()) && billable == []
      ensures invoices == old(invoices) + if old(billable) == [] then [] else [Invoice(Draft, Sum(old(billable)))]
    {
      if |billable| == 0 {
        return;
      }
      var draft := Invoice(Draft, Sum(billable));
      assert (invoices + [draft])[..|invoices|] == invoices;
      invoices := invoices + [draft];
      billable := [];
    }

    /** The loop over listed invoices that deletes zero-total drafts. */
    method DropZeroDrafts(listed: seq<Invoice>, done: nat -> bool) returns (deleted: bool)
      requires listed == invoices
      modifies this`invoices
      ensures Owing() == old(Owing()) && |invoices| == |listed|
      ensures forall i :: 0 <= i < |listed| ==> invoices[i] == Dropped(listed[i], done(i))
      ensures deleted <==> exists i :: 0 <= i < |listed| && ZeroDraft(listed[i])
    {
      deleted := false;
      for i := 0 to |listed|
        invariant |invoices| == |listed| && Owing() == old(Owing())
        invariant forall k :: 0 <= k < i ==> invoices[k] == Dropped(listed[k], done(k))
        invariant forall k :: i <= k < |listed| ==> invoices[k] == listed[k]
        invariant deleted <==> exists k :: 0 <= k < i && ZeroDraft(listed[k])
      {
        if ZeroDraft(listed[i]) {
          StatusOwed(invoices, i, Dropped(listed[i], done(i)));
          invoices := invoices[i := Dropped(listed[i], done(i))];
          deleted := true;
        }
      }
    }

    /** PrepareInvoicesForCustomerDeletion: what is outstanding, and whether pending lines remain. */
    method Prepare(done: nat -> bool) returns (outstanding: seq<nat>, gathering: bool)
      modifies this`billable, this`invoices
      ensures Owing() == old(Owing()) && billable == []
      ensures |invoices| >= |old(invoices)|
      ensures forall i :: 0 <= i < |old(invoices)| ==> invoices[i] == Dropped(old(invoices)[i], done(i))
      ensures outstanding == Blocking(invoices, |invoices|) && gathering == (future > 0)
      ensures outstanding == [] && !gathering <==> AllClosed(invoices) && future == 0
    {
      if |billable| > 0 || future > 0 {
        InvoicePendingLines();
      }
      var listed := invoices;
      var deleted := DropZeroDrafts(listed, done);
      if deleted {
        listed := invoices;
      } else {
        assert forall i :: 0 <= i < |listed| ==> invoices[i] == listed[i];
        assert listed == invoices;
      }
      gathering := future > 0;
      outstanding := Outstanding(listed);
    }
  }

  /** The last loop of PrepareInvoicesForCustomerDeletion. */
  method Outstanding(listed: seq<Invoice>) returns (outstanding: seq<nat>)
    ensures outstanding == Blocking(listed, |listed|)
    ensures outstanding == [] <==> AllClosed(listed)
  {
    outstanding := [];
    for i := 0 to |listed|
      invariant outstanding == Blocking(listed, i)
    {
      if !Closed(listed[i]) {
        outstanding := outstanding + [i];
      }
    }
    assert outstanding != [] ==> outstanding[0] in outstanding;
  }
}
