/**
 Telling waiting from failing: finalizerWaitRequeue over a tree of aggregated, joined and wrapped errors.
 */
module FinalizerWaits {
  import opened Common

  const TRANSIENT_REQUEUE_AFTER := 15 * SECOND

  datatype Wait = Wait(reason: string, after: int)

  /** Several covers aggregates and joins alike; Wrapped is an error with a single cause; Plain has none. */
  datatype Error =
    | Nil
    | Waiting(wait: Wait)
    | Several(members: seq<Error>)
    | Wrapped(cause: Error)
    | Plain

  /** collectFinalizerWaits: the waits found so far, or None once a branch ends in something else. */
  function Collect(e: Error, acc: seq<Wait>): Option<seq<Wait>>
    decreases e, 1, 0
  {
    match e
    case Nil => Some(acc)
    case Waiting(w) => Some(acc + [w])
    case Plain => None
    case Wrapped(cause) => if cause.Nil? then None else Collect(cause, acc)
    case Several(members) => if members == [] then None else CollectFrom(e, 0, acc)
  }

  /** The loop over the members, from the i-th on. */
  function CollectFrom(e: Error, i: nat, acc: seq<Wait>): Option<seq<Wait>>
    requires e.Several? && i <= |e.members|
    decreases e, 0, |e.members| - i
  {
    if i == |e.members| then Some(acc)
    else
      match Collect(e.members[i], acc)
      case None => None
      case Some(more) => CollectFrom(e, i + 1, more)
  }

  /** Where a path from the root of an error ends. */
  datatype Leaf = Nothing | AtWait(wait: Wait) | Failure

  /** Every leaf, left to right. */
  function Leaves(e: Error): seq<Leaf>
    decreases e, 1, 0
  {
    match e
    case Nil => [Nothing]
    case Waiting(w) => [AtWait(w)]
    case Plain => [Failure]
    case Wrapped(cause) => if cause.Nil? then [Failure] else Leaves(cause)
    case Several(members) => if members == [] then [Failure] else LeavesFrom(e, 0)
  }

  function LeavesFrom(e: Error, i: nat): seq<Leaf>
    requires e.Several? && i <= |e.members|
    decreases e, 0, |e.members| - i
  {
    if i == |e.members| then [] else Leaves(e.members[i]) + LeavesFrom(e, i + 1)
  }

  function Waits(leaves: seq<Leaf>): seq<Wait> {
    if leaves == [] then []
    else (if leaves[0].AtWait? then [leaves[0].wait] else []) + Waits(leaves[1..])
  }

  lemma {:induction false} WaitsAppend(a: seq<Leaf>, b: seq<Leaf>)
    ensures Waits(a + b) == Waits(a) + Waits(b)
  {
    if a != [] {
      WaitsAppend(a[1..], b);
      assert (a + b)[1..] == a[1..] + b;
    } else {
      assert a + b == b;
    }
  }

  /** The accumulating walk finds exactly the waits among the leaves, and fails exactly when a leaf is a failure. */
  lemma {:induction false} CollectExactly(e: Error, acc: seq<Wait>)
    ensures Collect(e, acc) == if Failure in Leaves(e) then None else Some(acc + Waits(Leaves(e)))
    decreases e, 1, 0
  {
    match e
    case Wrapped(cause) =>
      if !cause.Nil? {
        CollectExactly(cause, acc);
      }
    case Several(members) =>
      if members != [] {
        CollectFromExactly(e, 0, acc);
      }
    case Nil =>
      assert Waits([Nothing]) == [] && acc + [] == acc;
    case Waiting(w) =>
      assert Waits([AtWait(w)]) == [w];
    case Plain =>
  }

  lemma {:induction false} CollectFromExactly(e: Error, i: nat, acc: seq<Wait>)
    requires e.Several? && i <= |e.members|
    ensures CollectFrom(e, i, acc) == if Failure in LeavesFrom(e, i) then None else Some(acc + Waits(LeavesFrom(e, i)))
    decreases e, 0, |e.members| - i
  {
    if i < |e.members| {
      CollectExactly(e.members[i], acc);
      CollectFromExactly(e, i + 1, acc + Waits(Leaves(e.members[i])));
      WaitsAppend(Leaves(e.members[i]), LeavesFrom(e, i + 1));
      assert acc + (Waits(Leaves(e.members[i])) + Waits(LeavesFrom(e, i + 1)))
          == (acc + Waits(Leaves(e.members[i]))) + Waits(LeavesFrom(e, i + 1));
    } else {
      assert acc + [] == acc;
    }
  }

  /** The smallest positive interval asked for; the default when none is positive. */
  ghost predicate Shortest(waits: seq<Wait>, after: int) {
    if exists i :: 0 <= i < |waits| && waits[i].after > 0 then
      && after > 0 && (exists i :: 0 <= i < |waits| && waits[i].after == after)
      && forall i :: 0 <= i < |waits| && waits[i].after > 0 ==> after <= waits[i].after
    else after == TRANSIENT_REQUEUE_AFTER
  }

  /** The running minimum of finalizerWaitRequeue. */
  method ShortestWait(waits: seq<Wait>) returns (after: int, reasons: seq<string>)
    ensures Shortest(waits, after)
    ensures |reasons| == |waits| && forall k :: 0 <= k < |waits| ==> reasons[k] == waits[k].reason
  {
    after, reasons := 0, [];
    for i := 0 to |waits|
      invariant |reasons| == i && forall k :: 0 <= k < i ==> reasons[k] == waits[k].reason
      invariant after >= 0
      invariant after == 0 ==> forall k :: 0 <= k < i ==> waits[k].after <= 0
      invariant after > 0 ==> exists k :: 0 <= k < i && waits[k].after == after
      invariant after > 0 ==> forall k :: 0 <= k < i && waits[k].after > 0 ==> after <= waits[k].after
    {
      reasons := reasons + [waits[i].reason];
      if waits[i].after > 0 && (after == 0 || waits[i].after < after) {
        after := waits[i].after;
      }
    }
    if after == 0 {
      after := TRANSIENT_REQUEUE_AFTER;
    }
  }

  /** finalizerWaitRequeue: yes exactly when there is a wait and no path ends in a failure. */
  method FinalizerWaitRequeue(e: Error) returns (after: int, reasons: seq<string>, ok: bool)
    ensures ok <==> Failure !in Leaves(e) && Waits(Leaves(e)) != []
    ensures ok ==> Shortest(Waits(Leaves(e)), after)
    ensures ok ==> |reasons| == |Waits(Leaves(e))|
    ensures ok ==> forall k :: 0 <= k < |reasons| ==> reasons[k] == Waits(Leaves(e))[k].reason
  {
    CollectExactly(e, []);
    var found := Collect(e, []);
    if found.None? || |found.value| == 0 {
      return 0, [], false;
    }
    assert found.value == Waits(Leaves(e));
    after, reasons := ShortestWait(found.value);
    ok := true;
  }

  lemma {:induction false} FailureAmong(e: Error, from: nat, i: nat)
    requires e.Several? && from <= i < |e.members| && Failure in Leaves(e.members[i])
    ensures Failure in LeavesFrom(e, from)
    decreases i - from
  {
    if from < i {
      FailureAmong(e, from + 1, i);
    }
  }

  /** One failing leaf anywhere, however deep and among however many waits, makes the answer no. */
  lemma FailureAnywhere(e: Error, i: nat, acc: seq<Wait>)
    requires e.Several? && i < |e.members| && Failure in Leaves(e.members[i])
    ensures Failure in Leaves(e) && Collect(e, acc).None?
  {
    FailureAmong(e, 0, i);
    CollectExactly(e, acc);
  }
}
