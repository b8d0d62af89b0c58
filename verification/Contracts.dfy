/**
 Contract amendments: a timed protocol that spans reconciles through two annotations on the entitlement.
 An amendment waits for the end of the billing period it was first seen in, with the due date in an annotation, unless a
 due date that has passed is still stored: then it is made at once. So is the move onto a contract, on its start date.
 */
module Contracts {
  import opened Common
  import opened EnsureSubscription

  const STARTED := "openmeter.miloapis.com/contractStartedAt"
  const CHANGE_AT := "openmeter.miloapis.com/offerChangeAt"
  const CHANGE_DELAY := 5 * SECOND
  const RESYNC_AFTER := 30 * 60 * SECOND

  function WholeSecond(t: int): int {
    t - t % SECOND
  }

  /** RFC 3339 in UTC without fractions: writing drops what is below a second. */
  datatype Clock = Clock(format: int -> string, parse: string -> Option<int>)

  ghost predicate Lawful(clock: Clock) {
    && clock.parse("") == None
    && forall t :: clock.parse(clock.format(t)) == Some(WholeSecond(t))
  }

  /** What OpenMeter and the API server hold for one contract; billing periods count from anchor. In nanoseconds. */
  datatype World = World(annotations: map<string, string>, startsAt: int, offered: string, current: string,
                         activeFrom: int, anchor: int)

  /** How far a reconcile gets: fails before changing anything, fails after the change step, or completes. */
  datatype Cut = Early | Unrecorded | Complete

  function Started(w: World): bool {
    STARTED in w.annotations
  }

  function Due(w: World, clock: Clock): Option<int> {
    clock.parse(if CHANGE_AT in w.annotations then w.annotations[CHANGE_AT] else "")
  }

  /** What the change step decides; None when the account is on the offered plan. */
  function Decision(w: World, clock: Clock, periods: int -> Option<Period>, now: int): Option<Timing> {
    if w.offered == w.current then None
    else if !Started(w) then Some(Immediately)
    else Some(PeriodChangeTime(w.activeFrom, periods(now), now, Due(w, clock)))
  }

  function ChangeAt(decision: Option<Timing>): Option<int> {
    if decision.Some? && decision.value.Wait? then Some(decision.value.until) else None
  }

  function Changed(w: World, decision: Option<Timing>, now: int): World {
    if decision.None? || decision.value.Wait? then w
    else w.(current := w.offered, activeFrom := if decision.value.At? then decision.value.time else now,
            anchor := if Started(w) then w.anchor else w.startsAt)
  }

  /** The value wanted for one of the two annotations, if any. */
  function Wanted(key: string, started: bool, startsAt: int, changeAt: Option<int>, clock: Clock): Option<string> {
    if key == STARTED then
      if started || changeAt.None? then Some(clock.format(startsAt)) else None
    else if key == CHANGE_AT then
      if changeAt.Some? then Some(clock.format(changeAt.value)) else None
    else None
  }

  ghost predicate Recorded(before: map<string, string>, after: map<string, string>, startsAt: int,
                           changeAt: Option<int>, clock: Clock) {
    && (forall key :: key in {STARTED, CHANGE_AT} ==>
          (if key in after then Some(after[key]) else None)
            == Wanted(key, STARTED in before, startsAt, changeAt, clock))
    && (forall key :: key !in {STARTED, CHANGE_AT} ==>
          (key in after <==> key in before) && (key in before ==> after[key] == before[key]))
  }

  function Record(before: map<string, string>, startsAt: int, changeAt: Option<int>,
                  clock: Clock): (after: map<string, string>)
    ensures Recorded(before, after, startsAt, changeAt, clock)
  {
    var base := map key | key in before && key !in {STARTED, CHANGE_AT} :: before[key];
    var withStart :=
      if STARTED in before || changeAt.None? then base[STARTED := clock.format(startsAt)] else base;
    if changeAt.Some? then withStart[CHANGE_AT := clock.format(changeAt.value)] else withStart
  }

  lemma RecordedIsRecord(before: map<string, string>, after: map<string, string>, startsAt: int,
                         changeAt: Option<int>, clock: Clock)
    requires Recorded(before, after, startsAt, changeAt, clock)
    ensures after == Record(before, startsAt, changeAt, clock)
  {
    var other := Record(before, startsAt, changeAt, clock);
    forall key ensures key in after <==> key in other {
    }
    forall key | key in after ensures after[key] == other[key] {
    }
  }

  /** recordContractState: edit the two annotations in a loop; a patch is sent only when something changed. */
  method RecordContractState(annotations: map<string, string>, startsAt: int, changeAt: Option<int>, clock: Clock)
    returns (edited: map<string, string>, changed: bool)
    ensures edited == Record(annotations, startsAt, changeAt, clock)
    ensures changed <==> edited != annotations
  {
    edited, changed := annotations, false;
    var started := STARTED in annotations;
    var keys := [STARTED, CHANGE_AT];
    for i := 0 to 2
      invariant forall k :: 0 <= k < i ==>
        (if keys[k] in edited then Some(edited[keys[k]]) else None)
          == Wanted(keys[k], started, startsAt, changeAt, clock)
      invariant forall key :: key !in keys[..i] ==>
        (key in edited <==> key in annotations) && (key in annotations ==> edited[key] == annotations[key])
      invariant changed <==> edited != annotations
    {
      var key := keys[i];
      var want := Wanted(key, started, startsAt, changeAt, clock);
      if want.Some? && (key !in edited || edited[key] != want.value) {
        edited := edited[key := want.value];
        changed := true;
      } else if want.None? && key in edited {
        edited := edited - {key};
        changed := true;
      }
    }
    assert keys[0] == STARTED && keys[1] == CHANGE_AT;
    RecordedIsRecord(annotations, edited, startsAt, changeAt, clock);
  }

  function Reconciled(w: World, clock: Clock, periods: int -> Option<Period>, now: int, cut: Cut): World {
    var decision := Decision(w, clock, periods, now);
    match cut
    case Early => w
    case Unrecorded => Changed(w, decision, now)
    case Complete =>
      var next := Changed(w, decision, now);
      next.(annotations := Record(w.annotations, w.startsAt, ChangeAt(decision), clock))
  }

  /** What happens to a contract: a reconcile at some time, or the entitlement being pointed at another Offer. */
  datatype Happening = Reconcile(now: int, cut: Cut) | Amend(offer: string)

  /** A contract that starts later is left alone until then. */
  function Following(w: World, clock: Clock, periods: int -> Option<Period>, h: Happening): World {
    match h
    case Reconcile(now, cut) => if now < w.startsAt then w else Reconciled(w, clock, periods, now, cut)
    case Amend(offer) => w.(offered := offer)
  }

  /** A reconcile of a started contract that reaches the change step. */
  predicate Reaches(startsAt: int, h: Happening) {
    h.Reconcile? && h.now >= startsAt && !h.cut.Early?
  }

  function Requeue(changeAt: Option<int>, now: int): int {
    if changeAt.Some? && changeAt.value - now + CHANGE_DELAY < RESYNC_AFTER then changeAt.value - now + CHANGE_DELAY
    else RESYNC_AFTER
  }

  /** The contract part of Reconcile, from the annotations read to the requeue asked for. */
  class Entitlement {
    var annotations: map<string, string>
    const startsAt: int
    var offered: string
    var current: string
    var activeFrom: int
    var anchor: int

    constructor (w: World)
      ensures Seen() == w
    {
      annotations, startsAt, offered := w.annotations, w.startsAt, w.offered;
      current, activeFrom, anchor := w.current, w.activeFrom, w.anchor;
    }

    function Seen(): World
      reads this
    {
      World(annotations, startsAt, offered, current, activeFrom, anchor)
    }

    method Reconcile(clock: Clock, periods: int -> Option<Period>, now: int, cut: Cut)
      returns (requeueAfter: Option<int>)
      modifies this`annotations, this`current, this`activeFrom, this`anchor
      ensures Seen() == Following(old(Seen()), clock, periods, Happening.Reconcile(now, cut))
      ensures requeueAfter ==
        if !cut.Complete? then None
        else if now < startsAt then Some(startsAt - now)
        else Some(Requeue(ChangeAt(Decision(old(Seen()), clock, periods, now)), now))
    {
      if cut.Early? {
        return None;
      }
      if startsAt > now {
        return if cut.Complete? then Some(startsAt - now) else None;
      }
      var changeAt: Option<int> := None;
      if offered != current {
        var timing := Immediately;
        if STARTED in annotations {
          timing := PeriodChangeTime(activeFrom, periods(now), now, Due(Seen(), clock));
        }
        if timing.Wait? {
          changeAt := Some(timing.until);
        } else {
          current, activeFrom := offered, if timing.At? then timing.time else now;
          if STARTED !in annotations {
            anchor := startsAt;
          }
        }
      }
      if cut.Unrecorded? {
        return None;
      }
      var edited, changed := RecordContractState(annotations, startsAt, changeAt, clock);
      if changed {
        annotations := edited;
      }
      var after := RESYNC_AFTER;
      if changeAt.Some? && changeAt.value - now + CHANGE_DELAY < after {
        after := changeAt.value - now + CHANGE_DELAY;
      }
      requeueAfter := Some(after);
    }
  }

  // ---- One deferral ----

  /** A billing calendar: periods are half open and do not overlap. */
  ghost predicate Calendar(periods: int -> Option<Period>) {
    forall t :: periods(t).Some? ==>
      && periods(t).value.from <= t < periods(t).value.to
      && forall u :: periods(t).value.from <= u < periods(t).value.to ==> periods(u) == periods(t)
  }

  /** By time since, an amendment seen in period p has been deferred to its end and the due date stored. */
  ghost predicate Deferred(w: World, clock: Clock, p: Period, since: int) {
    && Started(w) && Due(w, clock) == Some(WholeSecond(p.to))
    && w.startsAt <= since && w.activeFrom <= since && p.from <= since < p.to
    && (p.from <= w.activeFrom || since - p.from > PERIOD_CHANGE_TOLERANCE)
  }

  /** A completed reconcile that finds the change waiting starts a deferral. */
  lemma WaitDefers(w: World, clock: Clock, periods: int -> Option<Period>, now: int)
    requires Lawful(clock) && Calendar(periods) && w.startsAt <= now && w.activeFrom <= now
    requires ChangeAt(Decision(w, clock, periods, now)).Some?
    ensures periods(now).Some? && ChangeAt(Decision(w, clock, periods, now)) == Some(periods(now).value.to)
    ensures Deferred(Reconciled(w, clock, periods, now, Complete), clock, periods(now).value, now)
    ensures Reconciled(w, clock, periods, now, Complete).current == w.current
  {
    var next := Reconciled(w, clock, periods, now, Complete);
    var p := periods(now).value;
    assert next.annotations == Record(w.annotations, w.startsAt, Some(p.to), clock);
    assert Recorded(w.annotations, next.annotations, w.startsAt, Some(p.to), clock);
    assert CHANGE_AT in {STARTED, CHANGE_AT} && STARTED in {STARTED, CHANGE_AT};
    assert next.annotations[CHANGE_AT] == clock.format(p.to);
  }

  /** The stored due date exists after a completed reconcile exactly while a change is waiting. */
  lemma DueStoredExactlyWhileWaiting(w: World, clock: Clock, periods: int -> Option<Period>, now: int)
    requires Lawful(clock)
    ensures var changeAt := ChangeAt(Decision(w, clock, periods, now));
      Due(Reconciled(w, clock, periods, now, Complete), clock)
      == if changeAt.Some? then Some(WholeSecond(changeAt.value)) else None
  {
    var changeAt := ChangeAt(Decision(w, clock, periods, now));
    var after := Record(w.annotations, w.startsAt, changeAt, clock);
    assert Recorded(w.annotations, after, w.startsAt, changeAt, clock);
    assert CHANGE_AT in {STARTED, CHANGE_AT};
    assert changeAt.Some? ==> after[CHANGE_AT] == clock.format(changeAt.value);
    assert changeAt.None? ==> CHANGE_AT !in after;
  }

  /** Before the boundary, with a whole-second boundary, the change keeps waiting for the same boundary. */
  lemma WaitsBefore(w: World, clock: Clock, periods: int -> Option<Period>, p: Period, since: int, now: int)
    requires Calendar(periods) && Deferred(w, clock, p, since) && periods(since) == Some(p)
    requires since <= now < WholeSecond(p.to) && w.offered != w.current
    ensures Decision(w, clock, periods, now) == Some(Wait(p.to))
  {
    assert periods(now) == Some(p);
  }

  lemma LaterPeriodStartsLater(periods: int -> Option<Period>, since: int, now: int)
    requires Calendar(periods) && periods(since).Some? && periods(now).Some? && now >= periods(since).value.to
    ensures periods(now).value.from >= periods(since).value.to
  {
    var p, q := periods(since).value, periods(now).value;
    var u := if q.from < p.from then p.from else q.from;
    assert u < p.to ==> periods(u) == Some(p);
    assert u < q.to ==> periods(u) == Some(q);
  }

  /** At or after the boundary the change is made: timed at a period start passed within the tolerance, else at once. */
  lemma MadeAfter(w: World, clock: Clock, periods: int -> Option<Period>, p: Period, since: int, now: int)
    requires Calendar(periods) && Deferred(w, clock, p, since) && periods(since) == Some(p)
    requires now >= p.to && w.offered != w.current
    ensures Decision(w, clock, periods, now) ==
      if periods(now).Some? && now - periods(now).value.from <= PERIOD_CHANGE_TOLERANCE
        then Some(At(periods(now).value.from))
      else Some(Immediately)
    ensures periods(now).Some? && periods(p.to) == periods(now) ==>
      Decision(w, clock, periods, now) ==
        if now - p.to <= PERIOD_CHANGE_TOLERANCE then Some(At(p.to)) else Some(Immediately)
  {
    if periods(now).Some? {
      LaterPeriodStartsLater(periods, since, now);
    }
  }

  // ---- Whole runs ----

  /** The world after the first n happenings. */
  function After(w: World, clock: Clock, periods: int -> Option<Period>, run: seq<Happening>, n: nat): (v: World)
    requires n <= |run|
    ensures v.startsAt == w.startsAt
  {
    if n == 0 then w else Following(After(w, clock, periods, run, n - 1), clock, periods, run[n - 1])
  }

  /** The clock never runs backwards and starts at since. */
  ghost predicate InOrder(run: seq<Happening>, since: int) {
    && (forall i :: 0 <= i < |run| && run[i].Reconcile? ==> run[i].now >= since)
    && (forall i, j :: 0 <= i < j < |run| && run[i].Reconcile? && run[j].Reconcile? ==> run[i].now <= run[j].now)
  }

  /** On its contract in period p, past the window at its start, with no due date or the end of p stored. */
  ghost predicate Holding(w: World, clock: Clock, p: Period, since: int) {
    && Started(w) && (Due(w, clock) == None || Due(w, clock) == Some(p.to))
    && w.startsAt <= since && w.activeFrom <= since && p.from <= since < p.to
    && (p.from <= w.activeFrom || since - p.from > PERIOD_CHANGE_TOLERANCE)
  }

  lemma HoldingStep(w: World, clock: Clock, periods: int -> Option<Period>, p: Period, since: int, h: Happening)
    requires Lawful(clock) && Calendar(periods) && periods(since) == Some(p) && p.to % SECOND == 0
    requires Holding(w, clock, p, since) && (h.Reconcile? ==> since <= h.now < p.to)
    ensures Holding(Following(w, clock, periods, h), clock, p, since)
    ensures Following(w, clock, periods, h).current == w.current
  {
    if h.Reconcile? {
      assert periods(h.now) == Some(p);
      var decision := Decision(w, clock, periods, h.now);
      assert decision == None || decision == Some(Wait(p.to));
      DueStoredExactlyWhileWaiting(w, clock, periods, h.now);
    }
  }

  /** A wait holds for its period whether or not the due date could be stored. */
  lemma WaitHolds(w: World, clock: Clock, periods: int -> Option<Period>, now: int, cut: Cut)
    requires Lawful(clock) && Calendar(periods) && w.startsAt <= now && w.activeFrom <= now && Due(w, clock) == None
    requires ChangeAt(Decision(w, clock, periods, now)).Some? && periods(now).value.to % SECOND == 0
    ensures Holding(Reconciled(w, clock, periods, now, cut), clock, periods(now).value, now)
    ensures Reconciled(w, clock, periods, now, cut).current == w.current
  {
    DueStoredExactlyWhileWaiting(w, clock, periods, now);
    if cut.Complete? {
      WaitDefers(w, clock, periods, now);
    }
  }

  /**
   Never before the boundary: whatever happens before it changes nothing, further amendments and failures included, even
   the failure to store the due date in the first place.
   */
  lemma {:induction false} NeverEarly(w: World, clock: Clock, periods: int -> Option<Period>, p: Period, since: int,
                                      run: seq<Happening>, n: nat)
    requires Lawful(clock) && Calendar(periods) && periods(since) == Some(p) && p.to % SECOND == 0
    requires Holding(w, clock, p, since) && n <= |run|
    requires forall i :: 0 <= i < n && run[i].Reconcile? ==> since <= run[i].now < p.to
    ensures After(w, clock, periods, run, n).current == w.current
    ensures Holding(After(w, clock, periods, run, n), clock, p, since)
  {
    if n > 0 {
      NeverEarly(w, clock, periods, p, since, run, n - 1);
      HoldingStep(After(w, clock, periods, run, n - 1), clock, periods, p, since, run[n - 1]);
    }
  }

  /**
   Past the boundary without a stored due date: within the tolerance of a period's start the change is timed there, as
   with one; but later than that it waits for the end of that period instead of being made at once.
   */
  lemma UnrecordedWaitsAgain(w: World, clock: Clock, periods: int -> Option<Period>, p: Period, since: int, now: int)
    requires Calendar(periods) && Holding(w, clock, p, since) && periods(since) == Some(p)
    requires now >= p.to && w.offered != w.current && Due(w, clock) == None
    ensures Decision(w, clock, periods, now) == Some(
      if periods(now).None? then Immediately
      else if now - periods(now).value.from <= PERIOD_CHANGE_TOLERANCE then At(periods(now).value.from)
      else Wait(periods(now).value.to))
  {
    if periods(now).Some? {
      LaterPeriodStartsLater(periods, since, now);
    }
  }

  /** No reconcile past the boundary reaches the change step, and none finds the amendment withdrawn. */
  ghost predicate Quiet(w: World, boundary: int, h: Happening) {
    h.Reconcile? && !h.cut.Early? ==>
      if w.offered == w.current then h.cut.Unrecorded? else h.now < boundary
  }

  ghost predicate QuietAt(w: World, clock: Clock, periods: int -> Option<Period>, boundary: int, run: seq<Happening>,
                          i: nat)
    requires i < |run|
  {
    Quiet(After(w, clock, periods, run, i), boundary, run[i])
  }

  lemma DeferredStep(w: World, clock: Clock, periods: int -> Option<Period>, p: Period, since: int, h: Happening)
    requires Lawful(clock) && Calendar(periods) && periods(since) == Some(p) && p.to % SECOND == 0
    requires Deferred(w, clock, p, since) && Quiet(w, p.to, h) && (h.Reconcile? ==> h.now >= since)
    ensures Deferred(Following(w, clock, periods, h), clock, p, since)
    ensures Following(w, clock, periods, h).current == w.current
  {
    if h.Reconcile? && !h.cut.Early? && w.offered != w.current {
      WaitsBefore(w, clock, periods, p, since, h.now);
      DueStoredExactlyWhileWaiting(w, clock, periods, h.now);
    }
  }

  lemma {:induction false} StaysDeferred(w: World, clock: Clock, periods: int -> Option<Period>, p: Period,
                                         since: int, run: seq<Happening>, n: nat)
    requires Lawful(clock) && Calendar(periods) && periods(since) == Some(p) && p.to % SECOND == 0
    requires Deferred(w, clock, p, since) && n <= |run| && InOrder(run, since)
    requires forall i :: 0 <= i < n ==> QuietAt(w, clock, periods, p.to, run, i)
    ensures Deferred(After(w, clock, periods, run, n), clock, p, since)
    ensures After(w, clock, periods, run, n).current == w.current
  {
    if n > 0 {
      StaysDeferred(w, clock, periods, p, since, run, n - 1);
      assert QuietAt(w, clock, periods, p.to, run, n - 1);
      DeferredStep(After(w, clock, periods, run, n - 1), clock, periods, p, since, run[n - 1]);
    }
  }

  /**
   Made by the first reconcile at or after the boundary that reaches the change step, and by none before it:
   timed at the boundary when within the tolerance of it, otherwise at a later period start just passed, or at once.
   */
  lemma MadeByFirst(w: World, clock: Clock, periods: int -> Option<Period>, p: Period, since: int,
                    run: seq<Happening>, n: nat)
    requires Lawful(clock) && Calendar(periods) && periods(since) == Some(p) && p.to % SECOND == 0
    requires Deferred(w, clock, p, since) && n < |run| && InOrder(run, since)
    requires forall i :: 0 <= i < n ==> QuietAt(w, clock, periods, p.to, run, i)
    requires run[n].Reconcile? && !run[n].cut.Early? && run[n].now >= p.to
    requires After(w, clock, periods, run, n).offered != w.current
    ensures forall i :: 0 <= i <= n ==> After(w, clock, periods, run, i).current == w.current
    ensures var now := run[n].now; var next := After(w, clock, periods, run, n + 1);
      && next.current == After(w, clock, periods, run, n).offered
      && next.activeFrom ==
         if periods(now).Some? && now - periods(now).value.from <= PERIOD_CHANGE_TOLERANCE
           then periods(now).value.from else now
    ensures var now := run[n].now;
      periods(now).Some? && periods(p.to) == periods(now) && now - p.to <= PERIOD_CHANGE_TOLERANCE ==>
      After(w, clock, periods, run, n + 1).activeFrom == p.to
  {
    forall i | 0 <= i <= n ensures After(w, clock, periods, run, i).current == w.current {
      StaysDeferred(w, clock, periods, p, since, run, i);
    }
    StaysDeferred(w, clock, periods, p, since, run, n);
    MadeAfter(After(w, clock, periods, run, n), clock, periods, p, since, run[n].now);
  }

  /** The stored date drops fractions of a second: the change can come early exactly when the boundary has one. */
  lemma EarlyExactly(w: World, clock: Clock, periods: int -> Option<Period>, p: Period, since: int)
    requires Calendar(periods) && periods(since) == Some(p) && Deferred(w, clock, p, since) && w.offered != w.current
    ensures p.to % SECOND == 0 <==>
            (forall now :: since <= now < p.to ==> Decision(w, clock, periods, now) == Some(Wait(p.to)))
  {
    if p.to % SECOND == 0 {
      forall now | since <= now < p.to ensures Decision(w, clock, periods, now) == Some(Wait(p.to)) {
        WaitsBefore(w, clock, periods, p, since, now);
      }
    } else {
      var now := if since < WholeSecond(p.to) then WholeSecond(p.to) else since;
      assert periods(now) == Some(p);
      assert Decision(w, clock, periods, now) == Some(Immediately);
    }
  }

  // ---- The requeue ----

  const SLACK := 85 * SECOND

  /** Each reconcile before the boundary is followed by the one it asked for, at most 85 seconds late. */
  ghost predicate Honoured(times: seq<int>, boundary: int) {
    forall i :: 0 <= i < |times| - 1 ==> HonouredAt(times, boundary, i)
  }

  ghost predicate HonouredAt(times: seq<int>, boundary: int, i: nat)
    requires i < |times| - 1
  {
    times[i] < boundary ==>
      var asked := times[i] + Requeue(Some(boundary), times[i]);
      asked <= times[i + 1] <= asked + SLACK
  }

  /** Before the boundary the reconciles are half an hour apart or more, so one of them reaches it. */
  lemma {:induction false} RequeueAdvances(times: seq<int>, boundary: int, k: nat)
    requires Honoured(times, boundary) && k < |times| && forall i :: 0 <= i <= k ==> times[i] < boundary
    ensures times[k] >= times[0] + k * RESYNC_AFTER
  {
    if k > 0 {
      RequeueAdvances(times, boundary, k - 1);
      assert HonouredAt(times, boundary, k - 1);
    }
  }

  /** The first reconcile at or after the boundary comes within the tolerance of it. */
  lemma RequeueLands(times: seq<int>, boundary: int, k: nat)
    requires Honoured(times, boundary) && 0 < k < |times| && times[k - 1] < boundary <= times[k]
    ensures times[k] - boundary <= PERIOD_CHANGE_TOLERANCE
  {
    assert HonouredAt(times, boundary, k - 1);
  }

  /** Complete reconciles at the given times, after the one at the first of them. */
  ghost predicate ReconcilesAt(run: seq<Happening>, times: seq<int>) {
    |run| < |times| && forall i :: 0 <= i < |run| ==> ReconcileAt(run, times, i)
  }

  ghost predicate ReconcileAt(run: seq<Happening>, times: seq<int>, i: nat)
    requires i < |run| && i + 1 < |times|
  {
    run[i] == Reconcile(times[i + 1], Complete)
  }

  /** The first n of times lie between the first one and the boundary. */
  ghost predicate AllWithin(times: seq<int>, n: nat, boundary: int)
    requires n <= |times|
  {
    forall k :: 0 <= k < n ==> times[0] <= times[k] < boundary
  }

  /** Deferred as in w, with the same amendment. */
  ghost predicate Waiting(now: World, w: World, clock: Clock, p: Period, since: int) {
    Deferred(now, clock, p, since) && now.current == w.current && now.offered == w.offered
  }

  /** Before the boundary complete reconciles leave the amendment waiting. */
  lemma {:induction false} StillWaiting(w: World, clock: Clock, periods: int -> Option<Period>, p: Period,
                                        times: seq<int>, run: seq<Happening>, i: nat)
    requires Lawful(clock) && Calendar(periods) && ReconcilesAt(run, times) && i <= |run|
    requires periods(times[0]) == Some(p) && p.to % SECOND == 0
    requires Deferred(w, clock, p, times[0]) && w.offered != w.current
    requires AllWithin(times, i + 1, p.to)
    ensures Waiting(After(w, clock, periods, run, i), w, clock, p, times[0])
  {
    if i > 0 {
      StillWaiting(w, clock, periods, p, times, run, i - 1);
      assert ReconcileAt(run, times, i - 1);
      DeferredStep(After(w, clock, periods, run, i - 1), clock, periods, p, times[0], run[i - 1]);
    }
  }

  /** The amendment is deferred in p from times[0] on, and p is followed by a period longer than the tolerance. */
  ghost predicate Setting(w: World, clock: Clock, periods: int -> Option<Period>, p: Period, since: int) {
    && Lawful(clock) && Calendar(periods) && periods(since) == Some(p) && p.to % SECOND == 0
    && Deferred(w, clock, p, since) && w.offered != w.current
    && periods(p.to).Some? && periods(p.to).value.to > p.to + PERIOD_CHANGE_TOLERANCE
  }

  lemma LandingIsTimed(w: World, clock: Clock, periods: int -> Option<Period>, p: Period, times: seq<int>,
                       run: seq<Happening>)
    requires ReconcilesAt(run, times) && run != [] && Setting(w, clock, periods, p, times[0])
    requires AllWithin(times, |run|, p.to)
    requires p.to <= times[|run|] <= p.to + PERIOD_CHANGE_TOLERANCE
    ensures After(w, clock, periods, run, |run|).current == w.offered
    ensures After(w, clock, periods, run, |run|).activeFrom == p.to
  {
    var n, since := |run|, times[0];
    assert run[n - 1] == Reconcile(times[n], Complete) by {
      assert ReconcileAt(run, times, n - 1);
    }
    assert Waiting(After(w, clock, periods, run, n - 1), w, clock, p, since) by {
      StillWaiting(w, clock, periods, p, times, run, n - 1);
    }
    LastIsTimed(w, clock, periods, p, run, since, times[n]);
  }

  /** When every requeue is honoured within 85 seconds, the first reconcile past the boundary times the change at it. */
  lemma HonouredIsTimed(w: World, clock: Clock, periods: int -> Option<Period>, p: Period, times: seq<int>,
                        run: seq<Happening>)
    requires ReconcilesAt(run, times) && run != [] && Setting(w, clock, periods, p, times[0]) && Honoured(times, p.to)
    requires AllWithin(times, |run|, p.to) && times[|run|] >= p.to
    ensures After(w, clock, periods, run, |run|).current == w.offered
    ensures After(w, clock, periods, run, |run|).activeFrom == p.to
  {
    RequeueLands(times, p.to, |run|);
    LandingIsTimed(w, clock, periods, p, times, run);
  }

  lemma LastIsTimed(w: World, clock: Clock, periods: int -> Option<Period>, p: Period, run: seq<Happening>,
                    since: int, now: int)
    requires Setting(w, clock, periods, p, since) && run != [] && run[|run| - 1] == Reconcile(now, Complete)
    requires Waiting(After(w, clock, periods, run, |run| - 1), w, clock, p, since)
    requires p.to <= now <= p.to + PERIOD_CHANGE_TOLERANCE
    ensures After(w, clock, periods, run, |run|).current == w.offered
    ensures After(w, clock, periods, run, |run|).activeFrom == p.to
  {
    TimedAtBoundary(After(w, clock, periods, run, |run| - 1), clock, periods, p, since, now);
  }

  /** A reconcile within the tolerance of the boundary, in a longer period, times the change at it. */
  lemma TimedAtBoundary(w: World, clock: Clock, periods: int -> Option<Period>, p: Period, since: int, now: int)
    requires Calendar(periods) && periods(since) == Some(p) && Deferred(w, clock, p, since) && w.offered != w.current
    requires periods(p.to).Some? && periods(p.to).value.to > p.to + PERIOD_CHANGE_TOLERANCE
    requires p.to <= now <= p.to + PERIOD_CHANGE_TOLERANCE
    ensures var next := Reconciled(w, clock, periods, now, Complete);
      next.current == w.offered && next.activeFrom == p.to
  {
    LaterPeriodStartsLater(periods, since, p.to);
    assert periods(now) == periods(p.to);
    MadeAfter(w, clock, periods, p, since, now);
  }

  // ---- Due dates left behind ----

  /** A reconcile of a started contract that completes. */
  predicate Completes(startsAt: int, h: Happening) {
    Reaches(startsAt, h) && h.cut.Complete?
  }

  /** The i-th happening is the last completed reconcile among the first n. */
  ghost predicate LastComplete(startsAt: int, run: seq<Happening>, i: nat, n: nat)
    requires n <= |run|
  {
    i < n && Completes(startsAt, run[i]) && forall k :: i < k < n ==> !Completes(startsAt, run[k])
  }

  /** The boundary the i-th happening, a reconcile, found a change waiting for. */
  function WaitedFor(w: World, clock: Clock, periods: int -> Option<Period>, run: seq<Happening>, i: nat): Option<int>
    requires i < |run|
  {
    if run[i].Reconcile? then ChangeAt(Decision(After(w, clock, periods, run, i), clock, periods, run[i].now)) else None
  }

  /** A happening that is not a completed reconcile leaves the due date alone. */
  lemma DueKept(w: World, clock: Clock, periods: int -> Option<Period>, h: Happening)
    requires !Completes(w.startsAt, h)
    ensures Due(Following(w, clock, periods, h), clock) == Due(w, clock)
  {
  }

  /** In every run the stored due date is the one the last completed reconcile had to wait for. */
  lemma {:induction false} DueAfterRun(w: World, clock: Clock, periods: int -> Option<Period>, run: seq<Happening>,
                                       i: nat, n: nat)
    requires Lawful(clock) && n <= |run| && LastComplete(w.startsAt, run, i, n)
    ensures Due(After(w, clock, periods, run, n), clock)
            == var b := WaitedFor(w, clock, periods, run, i); if b.Some? then Some(WholeSecond(b.value)) else None
  {
    if i == n - 1 {
      DueStoredExactlyWhileWaiting(After(w, clock, periods, run, i), clock, periods, run[i].now);
    } else {
      DueAfterRun(w, clock, periods, run, i, n - 1);
      DueKept(After(w, clock, periods, run, n - 1), clock, periods, run[n - 1]);
    }
  }

  lemma {:induction false} DueNeverStored(w: World, clock: Clock, periods: int -> Option<Period>, run: seq<Happening>,
                                          n: nat)
    requires n <= |run| && forall i :: 0 <= i < n ==> !Completes(w.startsAt, run[i])
    ensures Due(After(w, clock, periods, run, n), clock) == Due(w, clock)
  {
    if n > 0 {
      DueNeverStored(w, clock, periods, run, n - 1);
      DueKept(After(w, clock, periods, run, n - 1), clock, periods, run[n - 1]);
    }
  }

  lemma {:induction false} FindLast(startsAt: int, run: seq<Happening>, n: nat) returns (i: Option<nat>)
    requires n <= |run|
    ensures i.Some? ==> LastComplete(startsAt, run, i.value, n)
    ensures i.None? ==> forall k :: 0 <= k < n ==> !Completes(startsAt, run[k])
  {
    if n == 0 {
      i := None;
    } else if Completes(startsAt, run[n - 1]) {
      i := Some(n - 1);
    } else {
      i := FindLast(startsAt, run, n - 1);
    }
  }

  /** Within the tolerance after the start of a period that is not the subscription's first. */
  predicate AtPeriodStart(w: World, p: Period, now: int) {
    p.from > w.activeFrom && p.from <= now <= p.from + PERIOD_CHANGE_TOLERANCE
  }

  /** The last completed reconcile found a change waiting for a boundary that has passed since. */
  ghost predicate DueLeft(w: World, clock: Clock, periods: int -> Option<Period>, run: seq<Happening>, n: nat, now: int)
    requires n <= |run|
  {
    exists i :: LastComplete(w.startsAt, run, i, n) && PassedSince(w, clock, periods, run, i, now)
  }

  ghost predicate PassedSince(w: World, clock: Clock, periods: int -> Option<Period>, run: seq<Happening>, i: nat,
                              now: int)
    requires i < |run|
  {
    var b := WaitedFor(w, clock, periods, run, i);
    b.Some? && WholeSecond(b.value) <= now
  }

  lemma DueLeftExactly(w: World, clock: Clock, periods: int -> Option<Period>, run: seq<Happening>, n: nat, now: int)
    requires Lawful(clock) && n <= |run| && Due(w, clock) == None
    ensures var due := Due(After(w, clock, periods, run, n), clock);
      DueLeft(w, clock, periods, run, n, now) <==> due.Some? && due.value <= now
  {
    var last := FindLast(w.startsAt, run, n);
    if last.Some? {
      DueAfterRun(w, clock, periods, run, last.value, n);
      forall i | LastComplete(w.startsAt, run, i, n) ensures i == last.value {
      }
    } else {
      DueNeverStored(w, clock, periods, run, n);
    }
  }

  /**
   When an amendment waits: a reconcile in the middle of a period that finds one makes it at once if a due date that has
   passed is left from the last completed reconcile, and waits for the end of the period if not, whatever happened.
   */
  lemma RushedExactly(w: World, clock: Clock, periods: int -> Option<Period>, run: seq<Happening>, n: nat, now: int)
    requires Lawful(clock) && n <= |run| && Due(w, clock) == None
    requires var v := After(w, clock, periods, run, n);
      && Started(v) && v.offered != v.current
      && periods(now).Some? && !AtPeriodStart(v, periods(now).value, now)
    ensures Decision(After(w, clock, periods, run, n), clock, periods, now)
            == Some(if DueLeft(w, clock, periods, run, n, now) then Immediately else Wait(periods(now).value.to))
  {
    DueLeftExactly(w, clock, periods, run, n, now);
  }

  /**
   How a due date is left behind: a change made past its boundary whose annotation write failed leaves it stored, and
   the next amendment, seen in the middle of a period, is made at once.
   */
  lemma NextIsRushed(w: World, clock: Clock, periods: int -> Option<Period>, p: Period, since: int, t1: int, t2: int,
                     offer: string)
    requires Calendar(periods) && Deferred(w, clock, p, since) && periods(since) == Some(p)
    requires w.offered != w.current && offer != w.offered && p.to <= t1 <= t2
    requires periods(t2).Some? && t2 - periods(t2).value.from > PERIOD_CHANGE_TOLERANCE
    ensures var run := [Reconcile(t1, Unrecorded), Amend(offer), Reconcile(t2, Complete)];
      var after := After(w, clock, periods, run, 3);
      after.current == offer && after.activeFrom == t2
  {
    var run := [Reconcile(t1, Unrecorded), Amend(offer), Reconcile(t2, Complete)];
    MadeAfter(w, clock, periods, p, since, t1);
    assert After(w, clock, periods, run, 0) == w;
    var one := After(w, clock, periods, run, 1);
    assert one == Reconciled(w, clock, periods, t1, Unrecorded);
    assert one.current == w.offered && Due(one, clock) == Due(w, clock) && Started(one);
    var two := After(w, clock, periods, run, 2);
    assert two == one.(offered := offer);
    assert Decision(two, clock, periods, t2) == Some(Immediately);
    assert After(w, clock, periods, run, 3) == Reconciled(two, clock, periods, t2, Complete);
  }

  // ---- The first contract ----

  /** The account is on the offered plan after a reconcile at now, which left it there or moved it at once. */
  predicate MovedAtOnce(w: World, next: World, now: int) {
    && next.current == w.offered && next.offered == w.offered
    && next.activeFrom == (if w.offered == w.current then w.activeFrom else now)
    && next.anchor == if w.offered == w.current then w.anchor else w.startsAt
  }

  /** The annotations say that the contract has started and that nothing is due. */
  predicate RecordedStarted(w: World, clock: Clock) {
    STARTED in w.annotations && w.annotations[STARTED] == clock.format(w.startsAt) && CHANGE_AT !in w.annotations
  }

  /**
   Moving onto the contract changes plan at once: while it is not recorded as started, every reconcile that reaches the
   change step leaves the account on the offered plan, whatever the period and whatever is stored as due; and one that
   completes records the contract as started.
   */
  lemma FirstMoveAtOnce(w: World, clock: Clock, periods: int -> Option<Period>, now: int, cut: Cut)
    requires STARTED !in w.annotations && w.startsAt <= now && !cut.Early?
    ensures var next := Following(w, clock, periods, Reconcile(now, cut));
      && MovedAtOnce(w, next, now)
      && if cut.Complete? then RecordedStarted(next, clock) else next.annotations == w.annotations
  {
    if cut.Complete? {
      var after := Record(w.annotations, w.startsAt, None, clock);
      assert Recorded(w.annotations, after, w.startsAt, None, clock);
      assert STARTED in {STARTED, CHANGE_AT} && CHANGE_AT in {STARTED, CHANGE_AT};
      assert STARTED in after && after[STARTED] == clock.format(w.startsAt) && CHANGE_AT !in after;
    }
  }

  /** A contract recorded as started stays so. */
  lemma StaysStarted(w: World, clock: Clock, periods: int -> Option<Period>, h: Happening)
    requires Started(w)
    ensures Started(Following(w, clock, periods, h))
  {
  }

  /** Before the contract starts nothing changes, however often it is reconciled and whatever Offer it is moved to. */
  lemma {:induction false} KeptUntilStart(w: World, clock: Clock, periods: int -> Option<Period>, run: seq<Happening>,
                                          n: nat)
    requires n <= |run| && forall i :: 0 <= i < n && run[i].Reconcile? ==> run[i].now < w.startsAt
    ensures After(w, clock, periods, run, n) == w.(offered := After(w, clock, periods, run, n).offered)
  {
    if n > 0 {
      KeptUntilStart(w, clock, periods, run, n - 1);
    }
  }

  /** Over every run, a contract is recorded as started exactly when a reconcile has completed since it starts. */
  lemma {:induction false} StartedExactly(w: World, clock: Clock, periods: int -> Option<Period>, run: seq<Happening>,
                                          n: nat)
    requires STARTED !in w.annotations && n <= |run|
    ensures Started(After(w, clock, periods, run, n)) <==> exists i :: 0 <= i < n && Completes(w.startsAt, run[i])
  {
    if n > 0 {
      StartedExactly(w, clock, periods, run, n - 1);
      var before := After(w, clock, periods, run, n - 1);
      if Started(before) {
        StaysStarted(before, clock, periods, run[n - 1]);
      } else if Reaches(w.startsAt, run[n - 1]) {
        FirstMoveAtOnce(before, clock, periods, run[n - 1].now, run[n - 1].cut);
      }
    }
  }

  /**
   The first completed reconcile of a run, whatever came before it, leaves the account on the contract's Offer and
   recorded as started; and so far every reconcile that reached the change step had moved it at once.
   */
  lemma FirstCompletedStarts(w: World, clock: Clock, periods: int -> Option<Period>, run: seq<Happening>, n: nat)
    requires STARTED !in w.annotations && n < |run|
    requires Completes(w.startsAt, run[n]) && forall i :: 0 <= i < n ==> !Completes(w.startsAt, run[i])
    ensures var v := After(w, clock, periods, run, n + 1); v.current == v.offered && RecordedStarted(v, clock)
    ensures forall i :: 0 <= i <= n && Reaches(w.startsAt, run[i]) ==>
      MovedAtOnce(After(w, clock, periods, run, i), After(w, clock, periods, run, i + 1), run[i].now)
  {
    forall i | 0 <= i <= n && Reaches(w.startsAt, run[i])
      ensures MovedAtOnce(After(w, clock, periods, run, i), After(w, clock, periods, run, i + 1), run[i].now)
    {
      StartedExactly(w, clock, periods, run, i);
      FirstMoveAtOnce(After(w, clock, periods, run, i), clock, periods, run[i].now, run[i].cut);
    }
    StartedExactly(w, clock, periods, run, n);
    FirstMoveAtOnce(After(w, clock, periods, run, n), clock, periods, run[n].now, Complete);
  }

  /** The i-th happening moves the account onto the contract: before any reconcile completed, from another plan. */
  ghost predicate MovesOnto(w: World, clock: Clock, periods: int -> Option<Period>, run: seq<Happening>, i: nat)
    requires i < |run|
  {
    && Reaches(w.startsAt, run[i]) && (forall k :: 0 <= k < i ==> !Completes(w.startsAt, run[k]))
    && After(w, clock, periods, run, i).offered != After(w, clock, periods, run, i).current
  }

  ghost predicate Moved(w: World, clock: Clock, periods: int -> Option<Period>, run: seq<Happening>, n: nat)
    requires n <= |run|
  {
    exists i :: 0 <= i < n && MovesOnto(w, clock, periods, run, i)
  }

  lemma MovedStep(w: World, clock: Clock, periods: int -> Option<Period>, run: seq<Happening>, n: nat)
    requires n < |run|
    ensures Moved(w, clock, periods, run, n + 1)
            <==> Moved(w, clock, periods, run, n) || MovesOnto(w, clock, periods, run, n)
  {
  }

  /**
   The billing day: over every run the account bills on the contract's day if it was moved onto the contract from
   another plan, and keeps the day it had if it was on the contract's Offer all along; amendments never change the day.
   */
  lemma {:induction false} AnchorExactly(w: World, clock: Clock, periods: int -> Option<Period>, run: seq<Happening>,
                                         n: nat)
    requires STARTED !in w.annotations && n <= |run|
    ensures After(w, clock, periods, run, n).anchor == if Moved(w, clock, periods, run, n) then w.startsAt else w.anchor
  {
    if n > 0 {
      AnchorExactly(w, clock, periods, run, n - 1);
      var before, h := After(w, clock, periods, run, n - 1), run[n - 1];
      StartedExactly(w, clock, periods, run, n - 1);
      MovedStep(w, clock, periods, run, n - 1);
      if !Started(before) && Reaches(w.startsAt, h) {
        FirstMoveAtOnce(before, clock, periods, h.now, h.cut);
      }
    }
  }

  /** So an account comes to bill on the contract's day exactly when it was moved onto the contract. */
  lemma BillsOnContractDay(w: World, clock: Clock, periods: int -> Option<Period>, run: seq<Happening>)
    requires STARTED !in w.annotations && w.anchor != w.startsAt
    ensures After(w, clock, periods, run, |run|).anchor == w.startsAt <==> Moved(w, clock, periods, run, |run|)
  {
    AnchorExactly(w, clock, periods, run, |run|);
  }

  /** An account that is on the contract's Offer when it starts keeps the billing day it had, whatever follows. */
  lemma KeepsOwnDay(w: World, clock: Clock, periods: int -> Option<Period>, now: int, run: seq<Happening>)
    requires STARTED !in w.annotations && w.offered == w.current && w.startsAt <= now
    ensures After(w, clock, periods, [Reconcile(now, Complete)] + run, |run| + 1).anchor == w.anchor
  {
    var all := [Reconcile(now, Complete)] + run;
    AnchorExactly(w, clock, periods, all, |all|);
    assert Completes(w.startsAt, all[0]) && After(w, clock, periods, all, 0) == w;
  }
}
