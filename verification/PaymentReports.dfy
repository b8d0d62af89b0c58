/**
 Which payment attempts are reported: exactly those that the first sync to conclude about them finds decided. What is
 stored and reported is told from what the syncs of a run find, without looking at the stored state.
 */
module PaymentReports {
  import opened Common
  import opened PaymentTimeline

  /** The invoice looks like one projected before attempts were reported: it has a phase and no count. */
  predicate Unwatched(state: State) {
    state.count.None? && !state.status.phase.NoPhase?
  }

  /** The sync reads the Stripe invoice and gets to store a count. */
  predicate Counted(s: Sync) {
    s.invoice.Some? && !s.annotations.Refused?
  }

  /** Without the Stripe invoice the sync projects a status all the same. */
  predicate ShowsOnly(s: Sync) {
    && s.invoice.None? && s.projected.Some? && !s.statusWrite.Refused?
    && !s.crash.AfterAnnotations? && (s.refreshed ==> s.annotations.Done?)
  }

  /** The sync comes to a conclusion about the attempts it finds; on an unwatched invoice it always does. */
  predicate Concludes(unwatched: bool, s: Sync) {
    Counted(s) && (unwatched || !s.invoice.value.isOpen || !Undecided(s.latest))
  }

  /** The sync finds the attempts of an open invoice decided, and all goes well until the event is recorded. */
  predicate Decides(unwatched: bool, s: Sync) {
    && s.invoice.Some? && !unwatched && s.invoice.value.isOpen && Decided(s.latest)
    && s.annotations.Done? && s.crash.Survives?
  }

  predicate Beyond(s: Sync, concluded: nat) {
    s.invoice.Some? && s.invoice.value.attempts > concluded
  }

  /** The i-th sync of a run comes to an invoice whose status was projected before any count could be stored. */
  ghost predicate Late(run: seq<Sync>, i: nat)
    requires i <= |run|
  {
    (forall k :: 0 <= k < i ==> !Counted(run[k])) && exists k :: 0 <= k < i && ShowsOnly(run[k])
  }

  function NextConcluded(unwatched: bool, before: nat, s: Sync): nat {
    if Concludes(unwatched, s) && Beyond(s, before) then s.invoice.value.attempts else before
  }

  /** The attempts concluded about in the first n syncs: undecided ones do not count. */
  ghost function Concluded(run: seq<Sync>, n: nat): nat
    requires n <= |run|
  {
    if n == 0 then 0 else NextConcluded(Late(run, n - 1), Concluded(run, n - 1), run[n - 1])
  }

  function Decision(unwatched: bool, before: nat, s: Sync): seq<nat> {
    if Decides(unwatched, s) && Beyond(s, before) then [s.invoice.value.attempts] else []
  }

  /** The attempt counts first concluded about by a sync that decides, among the first n. */
  ghost function Decisions(run: seq<Sync>, n: nat): seq<nat>
    requires n <= |run|
  {
    if n == 0 then []
    else Decisions(run, n - 1) + Decision(Late(run, n - 1), Concluded(run, n - 1), run[n - 1])
  }

  /** The stored count, none being as good as zero. */
  function CountOrZero(state: State): nat {
    if state.count.Some? then state.count.value else 0
  }

  /** The sync sees the stored count and, without one, whether there is a phase. */
  predicate SeesProgress(current: State, seen: State) {
    && seen.count == current.count
    && (current.count.None? ==> (seen.status.phase.NoPhase? <==> current.status.phase.NoPhase?))
  }

  /** What one such sync is to leave behind: its conclusion, if it comes to one, and what it decides. */
  ghost predicate Follows(e: Effect, current: State, s: Sync) {
    && CountOrZero(e.state) == NextConcluded(Unwatched(current), CountOrZero(current), s)
    && Counts(e.events) == Decision(Unwatched(current), CountOrZero(current), s)
    && (e.state.count.Some? <==> current.count.Some? || Counted(s))
    && (e.state.status.phase.NoPhase? ==> current.status.phase.NoPhase?)
    && (e.state.count.None? && current.status.phase.NoPhase? ==> (e.state.status.phase.NoPhase? <==> !ShowsOnly(s)))
  }

  lemma EventExactly(seen: State, s: Sync)
    requires s.invoice.Some?
    ensures var r, before := AttemptEvent(seen.count, seen.status.phase, s.invoice, s.latest), CountOrZero(seen);
      var settles := Beyond(s, before) && (Unwatched(seen) || !s.invoice.value.isOpen || !Undecided(s.latest));
      && (r.0.Some? <==> !Unwatched(seen) && s.invoice.value.isOpen && Decided(s.latest) && Beyond(s, before))
      && (r.0.Some? ==> CountOf(r.0.value) == [s.invoice.value.attempts] && !r.0.value.Issued?)
      && (r.1.Some? <==> seen.count.None? || settles)
      && (r.1.Some? ==> r.1.value == if settles then s.invoice.value.attempts else before)
  {
  }

  lemma SyncStores(current: State, seen: State, s: Sync)
    requires SeesProgress(current, seen)
    ensures var e := EffectOf(current, seen, s);
      && CountOrZero(e.state) == NextConcluded(Unwatched(current), CountOrZero(current), s)
      && (e.state.count.Some? <==> current.count.Some? || Counted(s))
  {
    if s.invoice.Some? {
      EventExactly(seen, s);
    }
  }

  lemma SyncProjects(current: State, seen: State, s: Sync)
    requires SeesProgress(current, seen) && Projects(s)
    ensures var e := EffectOf(current, seen, s);
      && (e.state.status.phase.NoPhase? ==> current.status.phase.NoPhase?)
      && (e.state.count.None? && current.status.phase.NoPhase? ==> (e.state.status.phase.NoPhase? <==> !ShowsOnly(s)))
  {
    if s.invoice.Some? {
      EventExactly(seen, s);
    }
  }

  /** Nothing the sync writes fails before it records its events, and it gets to record them. */
  predicate Records(seen: State, s: Sync) {
    (Annotates(seen, s) ==> s.annotations.Done?) && s.crash.Survives?
  }

  lemma RecordedWhen(current: State, seen: State, s: Sync)
    ensures var e := EffectOf(current, seen, s);
      e.events == if Records(seen, s) then Reported(current, seen, s, e.state.status) else []
  {
  }

  lemma DecisionIsEvent(current: State, seen: State, s: Sync)
    requires SeesProgress(current, seen)
    ensures var event := AttemptEvent(seen.count, seen.status.phase, s.invoice, s.latest).0;
      Decision(Unwatched(current), CountOrZero(current), s)
      == if Records(seen, s) && event.Some? then CountOf(event.value) else []
  {
    if s.invoice.Some? {
      EventExactly(seen, s);
    }
  }

  lemma SyncRecords(current: State, seen: State, s: Sync)
    requires SeesProgress(current, seen)
    ensures Counts(EffectOf(current, seen, s).events) == Decision(Unwatched(current), CountOrZero(current), s)
  {
    RecordedWhen(current, seen, s);
    DecisionIsEvent(current, seen, s);
    if Records(seen, s) {
      ReportedCounts(current, seen, s, EffectOf(current, seen, s).state.status);
    } else {
      assert Counts([]) == [];
    }
  }

  /** Of what a sync records, the payment event alone reports an attempt. */
  lemma ReportedCounts(current: State, seen: State, s: Sync, next: Status)
    ensures var event := AttemptEvent(seen.count, seen.status.phase, s.invoice, s.latest).0;
      Counts(Reported(current, seen, s, next)) == if event.Some? then CountOf(event.value) else []
  {
    var event := AttemptEvent(seen.count, seen.status.phase, s.invoice, s.latest).0;
    var base := Base(current, seen, s);
    ReportTally(if s.statusWrite.Done? then StatusEvents(base, next) else [], event, base, next);
  }

  /** Every sync of the run works on an up-to-date Invoice. */
  ghost predicate WellSeen(effect: EffectRule, run: seq<Sync>) {
    forall i :: 0 <= i < |run| ==> ReadsCurrent(effect, run, i)
  }

  /** A phase once shown is not lost. */
  ghost predicate PhaseStays(states: seq<State>) {
    forall i, j :: 0 <= i <= j < |states| && states[j].status.phase.NoPhase? ==> states[i].status.phase.NoPhase?
  }

  /** The state after n syncs says how far they have come. */
  ghost predicate Tracks(state: State, run: seq<Sync>, n: nat)
    requires n <= |run|
  {
    && CountOrZero(state) == Concluded(run, n) && (Unwatched(state) <==> Late(run, n))
    && (state.count.None? <==> forall k :: 0 <= k < n ==> !Counted(run[k]))
  }

  lemma TracksNext(e: Effect, current: State, run: seq<Sync>, n: nat)
    requires n < |run| && Tracks(current, run, n) && Follows(e, current, run[n])
    ensures Tracks(e.state, run, n + 1)
  {
    assert (forall k :: 0 <= k < n + 1 ==> !Counted(run[k])) <==>
           (forall k :: 0 <= k < n ==> !Counted(run[k])) && !Counted(run[n]);
    assert (exists k :: 0 <= k < n + 1 && ShowsOnly(run[k])) <==>
           (exists k :: 0 <= k < n && ShowsOnly(run[k])) || ShowsOnly(run[n]);
  }

  /** Over every such run what is stored and what has been reported follow from what the syncs found. */
  lemma {:induction false} ReportsAreDecisions(effect: EffectRule, run: seq<Sync>, n: nat)
    requires forall current, seen, s: Sync :: SeesProgress(current, seen) && Projects(s) ==>
      Follows(effect(current, seen, s), current, s)
    requires WellSeen(effect, run) && n <= |run|
    ensures var story := Replay(effect, run, n);
      && PhaseStays(story.states) && Tracks(story.states[n], run, n) && Counts(story.log) == Decisions(run, n)
  {
    if n > 0 {
      ReportsAreDecisions(effect, run, n - 1);
      var earlier, s := Replay(effect, run, n - 1), run[n - 1];
      assert ReadsCurrent(effect, run, n - 1);
      var current := earlier.states[n - 1];
      var e := effect(current, Seen(earlier.states, s.lag), s);
      assert Follows(e, current, s);
      TracksNext(e, current, run, n - 1);
      Append(earlier.log, e.events);
    } else {
      assert Counts([]) == [];
    }
  }

  /** Stripe's attempt count never falls. */
  ghost predicate NeverFalls(run: seq<Sync>) {
    forall i, j :: 0 <= i <= j < |run| && run[i].invoice.Some? && run[j].invoice.Some? ==>
      run[i].invoice.value.attempts <= run[j].invoice.value.attempts
  }

  predicate Finds(s: Sync, a: nat) {
    s.invoice.Some? && s.invoice.value.attempts == a
  }

  ghost predicate ConcludesOn(run: seq<Sync>, i: nat, a: nat)
    requires i < |run|
  {
    Finds(run[i], a) && Concludes(Late(run, i), run[i])
  }

  /** The i-th sync is the first to conclude about attempt a, and decides it. */
  ghost predicate DecidedFirst(run: seq<Sync>, i: nat, a: nat)
    requires i < |run|
  {
    Finds(run[i], a) && Decides(Late(run, i), run[i]) && forall j :: 0 <= j < i ==> !ConcludesOn(run, j, a)
  }

  /** What has been concluded is what some sync found, and no sync concludes less. */
  lemma {:induction false} ConcludedFrom(run: seq<Sync>, n: nat)
    requires n <= |run| && NeverFalls(run)
    ensures Concluded(run, n) > 0 ==> exists j :: 0 <= j < n && ConcludesOn(run, j, Concluded(run, n))
    ensures forall j, a: nat :: 0 <= j < n && ConcludesOn(run, j, a) ==> a <= Concluded(run, n)
    ensures forall j :: n <= j < |run| && run[j].invoice.Some? ==> Concluded(run, n) <= run[j].invoice.value.attempts
  {
    if n > 0 {
      ConcludedFrom(run, n - 1);
      var s := run[n - 1];
      if Concludes(Late(run, n - 1), s) && Beyond(s, Concluded(run, n - 1)) {
        assert ConcludesOn(run, n - 1, Concluded(run, n));
      }
    }
  }

  /** To be the first to conclude about an attempt is to find it beyond what has been concluded. */
  lemma FirstIsBeyond(run: seq<Sync>, i: nat, a: nat)
    requires i < |run| && NeverFalls(run) && a > 0
    ensures DecidedFirst(run, i, a) <==>
      Finds(run[i], a) && Decides(Late(run, i), run[i]) && Beyond(run[i], Concluded(run, i))
  {
    ConcludedFrom(run, i);
  }

  ghost predicate AnyDecidedFirst(run: seq<Sync>, n: nat, a: nat)
    requires n <= |run|
  {
    exists i :: 0 <= i < n && DecidedFirst(run, i, a)
  }

  lemma OneMoreDecided(run: seq<Sync>, n: nat, a: nat)
    requires n < |run|
    ensures AnyDecidedFirst(run, n + 1, a) <==> AnyDecidedFirst(run, n, a) || DecidedFirst(run, n, a)
  {
  }

  lemma InDecision(unwatched: bool, before: nat, s: Sync, a: nat)
    ensures a in Decision(unwatched, before, s) <==> Finds(s, a) && Decides(unwatched, s) && Beyond(s, before)
  {
  }

  lemma NewestDecision(run: seq<Sync>, n: nat, a: nat, before: seq<nat>, after: seq<nat>)
    requires n < |run| && NeverFalls(run) && a > 0
    requires a in before <==> AnyDecidedFirst(run, n, a)
    requires after == before + Decision(Late(run, n), Concluded(run, n), run[n])
    ensures a in after <==> AnyDecidedFirst(run, n + 1, a)
  {
    var decision := Decision(Late(run, n), Concluded(run, n), run[n]);
    assert a in decision <==> DecidedFirst(run, n, a) by {
      FirstIsBeyond(run, n, a);
      InDecision(Late(run, n), Concluded(run, n), run[n], a);
    }
    OneMoreDecided(run, n, a);
  }

  lemma {:induction false} DecisionsExactly(run: seq<Sync>, n: nat, a: nat)
    requires n <= |run| && NeverFalls(run) && a > 0
    ensures a in Decisions(run, n) <==> AnyDecidedFirst(run, n, a)
  {
    if n > 0 {
      DecisionsExactly(run, n - 1, a);
      NewestDecision(run, n - 1, a, Decisions(run, n - 1), Decisions(run, n));
    }
  }

  lemma EffectsFollow(current: State, seen: State, s: Sync)
    requires SeesProgress(current, seen) && Projects(s)
    ensures Follows(EffectOf(current, seen, s), current, s)
  {
    SyncStores(current, seen, s);
    SyncProjects(current, seen, s);
    SyncRecords(current, seen, s);
  }

  /**
   What is reported: over every run of up-to-date syncs an attempt is reported if and only if the first sync to conclude
   about it finds it decided on an open invoice and gets to record the event. Undecided syncs and refused writes before
   it change nothing. An invoice whose status was projected before its Stripe invoice could be read is the exception:
   the first sync that reads it concludes about all attempts so far, and reports none of them.
   */
  lemma ReportedExactly(run: seq<Sync>, a: nat)
    requires WellSeen(Effects(), run) && NeverFalls(run) && a > 0
    ensures a in Counts(Replay(Effects(), run, |run|).log) <==> exists i :: 0 <= i < |run| && DecidedFirst(run, i, a)
  {
    forall current, seen, s: Sync | SeesProgress(current, seen) && Projects(s)
      ensures Follows(Effects()(current, seen, s), current, s)
    {
      EffectsFollow(current, seen, s);
    }
    ReportsAreDecisions(Effects(), run, |run|);
    DecisionsExactly(run, |run|, a);
  }

  /** So it is: shown open while Stripe could not be read, an invoice's first failed payment is never reported. */
  lemma FirstFailureUnreported(a: nat)
    requires a > 0
    ensures var run := [OpenSync(BLANK), FailedSync(a)];
      WellSeen(Effects(), run) && a !in Counts(Replay(Effects(), run, 2).log)
  {
    var run := [OpenSync(BLANK), FailedSync(a)];
    assert Replay(Effects(), run, 0) == Story([BLANK], []);
    assert ReadsCurrent(Effects(), run, 0);
    var first := EffectOf(BLANK, BLANK, run[0]);
    assert Replay(Effects(), run, 1).states == [BLANK, first.state];
    assert ReadsCurrent(Effects(), run, 1);
    assert ShowsOnly(run[0]) && !Counted(run[0]) && Late(run, 1);
    ReportedExactly(run, a);
  }
}
