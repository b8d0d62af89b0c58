/**
 The payment timeline of one invoice: a collection attempt is stored before it is reported, and a status change is
 reported after it is stored, so no failed write or crash reports anything twice. A sync works on the Invoice it finds
 in a cache, which may be behind what is stored.
 */
module PaymentTimeline {
  import opened Common

  /** NoPhase is an Invoice whose status was never projected. */
  datatype Phase = NoPhase | Open | PastDue | Paid | Void

  /** An Invoice's stored status; an amount that is not a number is None. */
  datatype Status = Status(phase: Phase, paid: Option<real>, due: Option<real>, mismatched: bool)

  datatype StripeInvoice = StripeInvoice(attempts: nat, isOpen: bool)

  /** What Stripe answers when asked for the latest payment attempt. */
  datatype Latest = Unreadable | NoAttempt | Processing | Succeeded | RequiresAction | Failed

  datatype Event =
    | Issued | PaymentSucceeded | BecamePastDue | Voided | PartiallyPaid | CurrencyMismatch
    | ActionRequired(count: nat) | PaymentFailed(count: nat)

  predicate Decided(latest: Latest) {
    latest.NoAttempt? || latest.RequiresAction? || latest.Failed?
  }

  /** The attempt may still turn out either way, or could not be looked at. */
  predicate Undecided(latest: Latest) {
    latest.Unreadable? || latest.Processing?
  }

  /** paymentAttemptEvent: the event to record, and the count to store before recording it, if any. */
  function AttemptEvent(stored: Option<nat>, phase: Phase, invoice: Option<StripeInvoice>, latest: Latest)
    : (r: (Option<Event>, Option<nat>))
    ensures r.0.Some? ==>
      && invoice.Some? && invoice.value.isOpen && Decided(latest) && r.1 == Some(invoice.value.attempts)
      && invoice.value.attempts > (if stored.Some? then stored.value else 0)
      && r.0.value ==
         if latest.RequiresAction? then ActionRequired(invoice.value.attempts)
         else PaymentFailed(invoice.value.attempts)
    ensures r.1.Some? && stored.Some? ==> r.1.value > stored.value
    ensures
      (&& invoice.Some? && (stored.Some? || phase.NoPhase?) && invoice.value.isOpen && Decided(latest)
       && invoice.value.attempts > (if stored.Some? then stored.value else 0)) ==> r.0.Some?
    ensures invoice.Some? && stored.None? ==> r.1.Some?
    ensures invoice.Some? && (stored.Some? || phase.NoPhase?) && invoice.value.isOpen && Undecided(latest) ==>
      r == (None, if stored.None? then Some(0) else None)
  {
    match invoice
    case None => (None, None)
    case Some(inv) =>
      if stored.None? && !phase.NoPhase? then (None, Some(inv.attempts))
      else
        var reported := if stored.Some? then stored.value else 0;
        var lookAgain := if stored.None? then Some(reported) else None;
        if inv.attempts <= reported then (None, lookAgain)
        else if !inv.isOpen then (None, Some(inv.attempts))
        else
          match latest
          case Unreadable => (None, lookAgain)
          case Processing => (None, lookAgain)
          case Succeeded => (None, Some(inv.attempts))
          case RequiresAction => (Some(ActionRequired(inv.attempts)), Some(inv.attempts))
          case NoAttempt => (Some(PaymentFailed(inv.attempts)), Some(inv.attempts))
          case Failed => (Some(PaymentFailed(inv.attempts)), Some(inv.attempts))
  }

  predicate Positive(amount: Option<real>) {
    amount.Some? && amount.value > 0.0
  }

  /** A missing or malformed b counts as zero. */
  predicate Greater(a: Option<real>, b: Option<real>) {
    a.Some? && a.value > if b.Some? then b.value else 0.0
  }

  predicate FirstShown(before: Phase, after: Phase) {
    before.NoPhase? && !after.NoPhase? && !after.Void?
  }

  predicate PaidMore(before: Status, after: Status) {
    && (after.phase.Open? || after.phase.PastDue?)
    && Positive(after.paid) && Positive(after.due) && Greater(after.paid, before.paid)
  }

  function PhaseEvent(before: Phase, after: Phase): seq<Event> {
    if after == before then []
    else
      match after
      case Paid => [PaymentSucceeded]
      case PastDue => [BecamePastDue]
      case Void => if before.NoPhase? then [] else [Voided]
      case Open => []
      case NoPhase => []
  }

  /** invoiceStatusEvents, from the stored status alone. */
  function StatusEvents(before: Status, after: Status): (r: seq<Event>)
    ensures Issued in r <==> FirstShown(before.phase, after.phase)
    ensures PaymentSucceeded in r <==> after.phase.Paid? && !before.phase.Paid?
    ensures BecamePastDue in r <==> after.phase.PastDue? && !before.phase.PastDue?
    ensures Voided in r <==> after.phase.Void? && !before.phase.Void? && !before.phase.NoPhase?
    ensures PartiallyPaid in r <==> PaidMore(before, after)
    ensures CurrencyMismatch in r <==> after.mismatched && !before.mismatched
    ensures before == after ==> r == []
  {
    (if FirstShown(before.phase, after.phase) then [Issued] else [])
    + PhaseEvent(before.phase, after.phase)
    + (if PaidMore(before, after) then [PartiallyPaid] else [])
    + if after.mismatched && !before.mismatched then [CurrencyMismatch] else []
  }

  /** What becomes of a write: carried out, refused, or carried out with the answer lost. */
  datatype Write = Done | Refused | Lost

  /** What is stored for one invoice: the attempt count on its annotation, and its status. */
  datatype State = State(count: Option<nat>, status: Status)

  /**
   One sync: how many syncs its cache is behind, what it reads elsewhere, whether other annotations are to be written
   too, what becomes of its two writes, and where the process stops, if it does.
   */
  datatype Sync = Sync(lag: nat, invoice: Option<StripeInvoice>, latest: Latest, projected: Option<Status>,
                       refreshed: bool, annotations: Write, statusWrite: Write, crash: Crash)

  datatype Crash = Survives | AfterAnnotations | AfterStatus

  /** The attempt counts reported by the first n events. */
  function CountsIn(log: seq<Event>, n: nat): seq<nat>
    requires n <= |log|
  {
    if n == 0 then [] else CountsIn(log, n - 1) + CountOf(log[n - 1])
  }

  function Counts(log: seq<Event>): seq<nat> {
    CountsIn(log, |log|)
  }

  function IssuedIn(log: seq<Event>, n: nat): nat
    requires n <= |log|
  {
    if n == 0 then 0 else IssuedIn(log, n - 1) + if log[n - 1].Issued? then 1 else 0
  }

  function TimesIssued(log: seq<Event>): nat {
    IssuedIn(log, |log|)
  }

  ghost predicate Increasing(counts: seq<nat>) {
    forall i, j :: 0 <= i < j < |counts| ==> counts[i] < counts[j]
  }

  /** Reported attempt counts and the number of times the invoice was reported issued agree with what is stored. */
  ghost predicate Agrees(counts: seq<nat>, issued: nat, stored: Option<nat>, phase: Phase) {
    && Increasing(counts)
    && (counts != [] ==> stored.Some? && counts[|counts| - 1] <= stored.value)
    && issued <= (if phase.NoPhase? then 0 else 1)
  }

  ghost predicate Consistent(log: seq<Event>, state: State) {
    Agrees(Counts(log), TimesIssued(log), state.count, state.status.phase)
  }

  function CountOf(e: Event): seq<nat> {
    if e.ActionRequired? then [e.count] else if e.PaymentFailed? then [e.count] else []
  }

  lemma {:induction false} SameFront(log: seq<Event>, events: seq<Event>, n: nat)
    requires n <= |log|
    ensures CountsIn(log + events, n) == CountsIn(log, n) && IssuedIn(log + events, n) == IssuedIn(log, n)
  {
    if n > 0 {
      SameFront(log, events, n - 1);
    }
  }

  lemma Associates(a: seq<nat>, b: seq<nat>, c: seq<nat>)
    ensures a + (b + c) == (a + b) + c
  {
  }

  lemma {:induction false} AppendUpTo(log: seq<Event>, events: seq<Event>, n: nat)
    requires n <= |events|
    ensures CountsIn(log + events, |log| + n) == Counts(log) + CountsIn(events, n)
    ensures IssuedIn(log + events, |log| + n) == TimesIssued(log) + IssuedIn(events, n)
  {
    if n == 0 {
      SameFront(log, events, |log|);
      assert Counts(log) + [] == Counts(log);
    } else {
      AppendUpTo(log, events, n - 1);
      assert (log + events)[|log| + n - 1] == events[n - 1];
      Associates(Counts(log), CountsIn(events, n - 1), CountOf(events[n - 1]));
    }
  }

  lemma Append(log: seq<Event>, events: seq<Event>)
    ensures Counts(log + events) == Counts(log) + Counts(events)
    ensures TimesIssued(log + events) == TimesIssued(log) + TimesIssued(events)
  {
    AppendUpTo(log, events, |events|);
  }

  lemma One(e: Event)
    ensures Counts([e]) == CountOf(e) && TimesIssued([e]) == if e.Issued? then 1 else 0
  {
    assert CountsIn([e], 1) == CountsIn([e], 0) + CountOf(e) == [] + CountOf(e) == CountOf(e);
    assert IssuedIn([e], 1) == IssuedIn([e], 0) + if e.Issued? then 1 else 0;
  }

  lemma StatusTally(before: Status, after: Status)
    ensures Counts(StatusEvents(before, after)) == []
    ensures TimesIssued(StatusEvents(before, after)) == if FirstShown(before.phase, after.phase) then 1 else 0
  {
    var a := if FirstShown(before.phase, after.phase) then [Issued] else [];
    var b := PhaseEvent(before.phase, after.phase);
    var c := if PaidMore(before, after) then [PartiallyPaid] else [];
    var d := if after.mismatched && !before.mismatched then [CurrencyMismatch] else [];
    One(Issued);
    Quiet(b);
    Quiet(c);
    Quiet(d);
    Append(a, b);
    Append(a + b, c);
    Append(a + b + c, d);
  }

  /** One event at most, which neither reports an attempt nor the invoice's issue. */
  lemma Quiet(events: seq<Event>)
    requires |events| <= 1 && forall e :: e in events ==> CountOf(e) == [] && !e.Issued?
    ensures Counts(events) == [] && TimesIssued(events) == 0
  {
    if events != [] {
      assert events == [events[0]];
      One(events[0]);
    }
  }

  /** A merge patch: what is to change is what differs from the base. */
  function Merged(current: Status, base: Status, wanted: Status): (r: Status)
    ensures current == base ==> r == wanted
    ensures wanted == base ==> r == current
  {
    Status(if wanted.phase != base.phase then wanted.phase else current.phase,
           if wanted.paid != base.paid then wanted.paid else current.paid,
           if wanted.due != base.due then wanted.due else current.due,
           if wanted.mismatched != base.mismatched then wanted.mismatched else current.mismatched)
  }

  /** What one sync leaves behind: what is stored, and the events recorded. */
  datatype Effect = Effect(state: State, events: seq<Event>)

  /** Whether the annotations differ from those the sync has seen. */
  predicate Annotates(seen: State, s: Sync) {
    s.refreshed || AttemptEvent(seen.count, seen.status.phase, s.invoice, s.latest).1.Some?
  }

  function NextCount(current: State, seen: State, s: Sync): Option<nat> {
    var count := AttemptEvent(seen.count, seen.status.phase, s.invoice, s.latest).1;
    if count.Some? then count else current.count
  }

  /** The answer to an annotation write is the Invoice as now stored; without one the sync goes on with its own. */
  function Base(current: State, seen: State, s: Sync): Status {
    if Annotates(seen, s) then current.status else seen.status
  }

  function NextStatus(current: State, seen: State, s: Sync): Status {
    var base := Base(current, seen, s);
    if s.statusWrite.Refused? then current.status
    else Merged(current.status, base, if s.projected.Some? then s.projected.value else base)
  }

  function EffectOf(current: State, seen: State, s: Sync): Effect {
    if Annotates(seen, s) && s.annotations.Refused? then Effect(current, [])
    else
      var stored := State(NextCount(current, seen, s), current.status);
      if (Annotates(seen, s) && s.annotations.Lost?) || s.crash.AfterAnnotations? then Effect(stored, [])
      else
        var next := stored.(status := NextStatus(current, seen, s));
        if s.crash.AfterStatus? then Effect(next, [])
        else Effect(next, Reported(current, seen, s, next.status))
  }

  /** The status events, once the write is known to have been made, and the payment event whatever becomes of it. */
  function Reported(current: State, seen: State, s: Sync, next: Status): seq<Event> {
    (if s.statusWrite.Done? then StatusEvents(Base(current, seen, s), next) else [])
    + Report(AttemptEvent(seen.count, seen.status.phase, s.invoice, s.latest).0)
  }

  function Report(event: Option<Event>): seq<Event> {
    if event.Some? then [event.value] else []
  }

  lemma ReportTally(reported: seq<Event>, event: Option<Event>, before: Status, after: Status)
    requires reported == [] || reported == StatusEvents(before, after)
    requires event.Some? ==> !event.value.Issued?
    ensures Counts(reported + Report(event)) == if event.Some? then CountOf(event.value) else []
    ensures TimesIssued(reported + Report(event)) <= if FirstShown(before.phase, after.phase) then 1 else 0
  {
    StatusTally(before, after);
    Append(reported, Report(event));
    if event.Some? {
      One(event.value);
    }
  }

  lemma AgreesNext(counts: seq<nat>, issued: nat, stored: Option<nat>, more: Option<nat>, before: Phase, after: Phase,
                   newCounts: seq<nat>, newIssued: nat)
    requires Agrees(counts, issued, stored, before) && (after.NoPhase? ==> before.NoPhase?)
    requires more == stored || (more.Some? && (stored.Some? ==> more.value > stored.value))
    requires newCounts != [] ==>
        more.Some? && (stored.Some? ==> more.value > stored.value) && newCounts == [more.value]
    requires newIssued <= if before.NoPhase? && !after.NoPhase? then 1 else 0
    ensures Agrees(counts + newCounts, issued + newIssued, more, after)
  {
    var n := |counts|;
    assert forall i :: 0 <= i < n ==> counts[i] <= counts[n - 1];
  }

  /** The sync has seen the stored count, and a phase if there is one. */
  predicate UpToDate(current: State, seen: State) {
    seen.count == current.count && (seen.status.phase.NoPhase? ==> current.status.phase.NoPhase?)
  }

  predicate Projects(s: Sync) {
    s.projected.Some? ==> !s.projected.value.phase.NoPhase?
  }

  /** What a sync records: status events or none, then a payment event or none. */
  lemma EventsShape(current: State, seen: State, s: Sync) returns (reported: seq<Event>, event: Option<Event>)
    ensures var e := EffectOf(current, seen, s);
      && e.events == reported + Report(event)
      && (reported == [] || reported == StatusEvents(Base(current, seen, s), e.state.status))
      && (event.Some? ==> event == AttemptEvent(seen.count, seen.status.phase, s.invoice, s.latest).0)
  {
    var e := EffectOf(current, seen, s);
    if e.events == [] {
      reported, event := [], None;
    } else {
      event := AttemptEvent(seen.count, seen.status.phase, s.invoice, s.latest).0;
      reported := if s.statusWrite.Done? then StatusEvents(Base(current, seen, s), e.state.status) else [];
    }
  }

  /** A payment event's count is stored, and raised. */
  lemma EffectShape(current: State, seen: State, s: Sync) returns (reported: seq<Event>, event: Option<Event>)
    requires Projects(s) && seen.count == current.count
    ensures var e := EffectOf(current, seen, s);
      && e.events == reported + Report(event)
      && (reported == [] || reported == StatusEvents(Base(current, seen, s), e.state.status))
      && (e.state.status.phase.NoPhase? ==> current.status.phase.NoPhase?)
      && NextOrSame(current.count, e.state.count)
      && (event.Some? ==> !event.value.Issued? && e.state.count.Some? && CountOf(event.value) == [e.state.count.value]
                          && Raised(current.count, e.state.count))
  {
    reported, event := EventsShape(current, seen, s);
  }

  predicate Raised(before: Option<nat>, after: Option<nat>) {
    after.Some? && (before.Some? ==> after.value > before.value)
  }

  predicate NextOrSame(before: Option<nat>, after: Option<nat>) {
    after == before || Raised(before, after)
  }

  /** What an up-to-date sync reports: one count at most, raised and stored, and the issue at most once. */
  lemma EffectTally(current: State, seen: State, s: Sync)
    requires UpToDate(current, seen) && Projects(s)
    ensures var e := EffectOf(current, seen, s);
      && NextOrSame(current.count, e.state.count)
      && (e.state.status.phase.NoPhase? ==> current.status.phase.NoPhase?)
      && (Counts(e.events) != [] ==>
            Raised(current.count, e.state.count) && Counts(e.events) == [e.state.count.value])
      && TimesIssued(e.events) <= (if FirstShown(current.status.phase, e.state.status.phase) then 1 else 0)
  {
    var e := EffectOf(current, seen, s);
    var reported, event := EffectShape(current, seen, s);
    ReportTally(reported, event, Base(current, seen, s), e.state.status);
  }

  /** An up-to-date sync keeps the log consistent; the count only grows, and strictly with every payment event. */
  lemma EffectConsistent(log: seq<Event>, current: State, seen: State, s: Sync)
    requires Consistent(log, current) && UpToDate(current, seen) && Projects(s)
    ensures var e := EffectOf(current, seen, s);
      && Consistent(log + e.events, e.state) && NextOrSame(current.count, e.state.count)
      && (Counts(log + e.events) == Counts(log)
          || (Raised(current.count, e.state.count) && Counts(log + e.events) == Counts(log) + [e.state.count.value]))
  {
    EffectTally(current, seen, s);
    Extends(log, current, EffectOf(current, seen, s));
  }

  lemma Extends(log: seq<Event>, current: State, e: Effect)
    requires Consistent(log, current) && NextOrSame(current.count, e.state.count)
    requires e.state.status.phase.NoPhase? ==> current.status.phase.NoPhase?
    requires Counts(e.events) != [] ==>
      Raised(current.count, e.state.count) && Counts(e.events) == [e.state.count.value]
    requires TimesIssued(e.events) <= if FirstShown(current.status.phase, e.state.status.phase) then 1 else 0
    ensures Consistent(log + e.events, e.state) && Counts(log + e.events) == Counts(log) + Counts(e.events)
  {
    Append(log, e.events);
    AgreesNext(Counts(log), TimesIssued(log), current.count, e.state.count, current.status.phase,
               e.state.status.phase, Counts(e.events), TimesIssued(e.events));
  }

  // ---- Runs ----

  /** What was stored after each sync of a run, oldest first, and all that was reported. */
  datatype Story = Story(states: seq<State>, log: seq<Event>)

  const BLANK := State(None, Status(NoPhase, None, None, false))

  /** What a cache shows that is this many states behind. */
  function Seen(states: seq<State>, lag: nat): State
    requires states != []
  {
    states[Max(0, |states| - 1 - lag)]
  }

  type EffectRule = (State, State, Sync) -> Effect

  function Effects(): EffectRule {
    (current: State, seen: State, s: Sync) => EffectOf(current, seen, s)
  }

  /** The story of the first n syncs, each working on what its cache shows. */
  function Replay(effect: EffectRule, run: seq<Sync>, n: nat): (r: Story)
    requires n <= |run|
    ensures |r.states| == n + 1
  {
    if n == 0 then Story([BLANK], [])
    else
      var earlier := Replay(effect, run, n - 1);
      var e := effect(earlier.states[n - 1], Seen(earlier.states, run[n - 1].lag), run[n - 1]);
      Story(earlier.states + [e.state], earlier.log + e.events)
  }

  /** The n-th sync of the run finds an up-to-date Invoice. */
  ghost predicate ReadsCurrent(effect: EffectRule, run: seq<Sync>, n: nat)
    requires n < |run|
  {
    var states := Replay(effect, run, n).states;
    UpToDate(states[n], Seen(states, run[n].lag)) && Projects(run[n])
  }

  ghost predicate Preserves(effect: EffectRule, log: seq<Event>, current: State, seen: State, s: Sync) {
    var e := effect(current, seen, s);
    Consistent(log + e.events, e.state)
  }

  lemma {:induction false} StaysConsistent(effect: EffectRule, run: seq<Sync>, n: nat)
    requires forall log, current, seen, s :: Consistent(log, current) && UpToDate(current, seen) && Projects(s) ==>
      Preserves(effect, log, current, seen, s)
    requires n <= |run| && forall i :: 0 <= i < n ==> ReadsCurrent(effect, run, i)
    ensures Consistent(Replay(effect, run, n).log, Replay(effect, run, n).states[n])
  {
    if n > 0 {
      StaysConsistent(effect, run, n - 1);
      assert ReadsCurrent(effect, run, n - 1);
      var earlier, s := Replay(effect, run, n - 1), run[n - 1];
      assert Preserves(effect, earlier.log, earlier.states[n - 1], Seen(earlier.states, s.lag), s);
    } else {
      assert Counts([]) == [];
    }
  }

  /**
   Over every run of syncs that find an up-to-date Invoice, whatever fails, no attempt count is reported twice and the
   invoice is reported issued at most once.
   */
  lemma ReportedOnce(run: seq<Sync>)
    requires forall i :: 0 <= i < |run| ==> ReadsCurrent(Effects(), run, i)
    ensures var log := Replay(Effects(), run, |run|).log; Increasing(Counts(log)) && TimesIssued(log) <= 1
  {
    forall log, current, seen, s | Consistent(log, current) && UpToDate(current, seen) && Projects(s)
      ensures Preserves(Effects(), log, current, seen, s)
    {
      EffectConsistent(log, current, seen, s);
    }
    StaysConsistent(Effects(), run, |run|);
  }

  // ---- Stale caches ----

  /** With these events something has been reported twice. */
  ghost predicate Twice(log: seq<Event>, events: seq<Event>) {
    !Increasing(Counts(log + events)) || TimesIssued(log + events) > 1
  }

  /** Stripe's attempt count has not fallen behind what is stored. */
  predicate NoFewer(s: Sync, current: State) {
    s.invoice.Some? && current.count.Some? ==> s.invoice.value.attempts >= current.count.value
  }

  /** The stored count has been reported, and the cache shows a lower one or an Invoice not projected yet. */
  ghost predicate CountUnseen(log: seq<Event>, current: State, seen: State) {
    && current.count.Some? && current.count.value in Counts(log)
    && if seen.count.Some? then seen.count.value < current.count.value
       else seen.status.phase.NoPhase? && 0 < current.count.value
  }

  /** The invoice has been reported issued, and the cache shows it not projected yet. */
  ghost predicate IssueUnseen(log: seq<Event>, seen: State) {
    TimesIssued(log) == 1 && seen.status.phase.NoPhase?
  }

  /** A sync of an account whose last report its cache shows reports nothing twice. */
  lemma SeenIsOnce(log: seq<Event>, current: State, seen: State, s: Sync)
    requires Consistent(log, current) && NoFewer(s, current)
    requires !CountUnseen(log, current, seen) && !IssueUnseen(log, seen)
    ensures !Twice(log, EffectOf(current, seen, s).events)
  {
    var e := EffectOf(current, seen, s);
    var reported, event := EventsShape(current, seen, s);
    ReportTally(reported, event, Base(current, seen, s), e.state.status);
    Append(log, e.events);
    if event.Some? {
      LaterCount(Counts(log), current.count, s.invoice.value.attempts);
    }
  }

  lemma LaterCount(counts: seq<nat>, stored: Option<nat>, a: nat)
    requires Increasing(counts) && (counts != [] ==> stored.Some? && counts[|counts| - 1] <= stored.value <= a)
    requires stored.Some? && a == stored.value ==> a !in counts
    ensures Increasing(counts + [a])
  {
    var n := |counts|;
    if n > 0 {
      assert counts[n - 1] in counts;
      assert forall i :: 0 <= i < n ==> counts[i] <= counts[n - 1];
    }
  }

  /** A failed attempt reported before, seen with an older count. */
  lemma CountTwice(log: seq<Event>, current: State, seen: State) returns (s: Sync)
    requires Consistent(log, current) && CountUnseen(log, current, seen)
    ensures Projects(s) && NoFewer(s, current) && Twice(log, EffectOf(current, seen, s).events)
  {
    var c := current.count.value;
    s := FailedSync(c);
    FailedAgain(current, seen, c);
    One(PaymentFailed(c));
    Append(log, [PaymentFailed(c)]);
    Repeated(Counts(log), c);
  }

  /** A sync that finds the c-th attempt failed. */
  function FailedSync(c: nat): Sync {
    Sync(0, Some(StripeInvoice(c, true)), Failed, None, false, Done, Refused, Survives)
  }

  lemma FailedAgain(current: State, seen: State, c: nat)
    requires if seen.count.Some? then seen.count.value < c else seen.status.phase.NoPhase? && 0 < c
    ensures EffectOf(current, seen, FailedSync(c)).events == [PaymentFailed(c)]
  {
    assert Reported(current, seen, FailedSync(c), current.status) == [] + [PaymentFailed(c)];
  }

  lemma Repeated(counts: seq<nat>, c: nat)
    requires c in counts
    ensures !Increasing(counts + [c])
  {
    var i :| 0 <= i < |counts| && counts[i] == c;
    assert (counts + [c])[|counts|] == c && (counts + [c])[i] == c;
  }

  /** An invoice reported issued before, seen as not projected yet. */
  lemma IssueTwice(log: seq<Event>, current: State, seen: State) returns (s: Sync)
    requires IssueUnseen(log, seen)
    ensures Projects(s) && NoFewer(s, current) && Twice(log, EffectOf(current, seen, s).events)
  {
    s := OpenSync(seen);
    ShownOpen(current, seen);
    StatusTally(seen.status, Opened(current.status));
    Append(log, StatusEvents(seen.status, Opened(current.status)));
  }

  function Opened(status: Status): Status {
    status.(phase := Open)
  }

  /** A sync that finds the invoice open, and nothing of Stripe. */
  function OpenSync(seen: State): Sync {
    Sync(0, None, NoAttempt, Some(Opened(seen.status)), false, Done, Done, Survives)
  }

  lemma ShownOpen(current: State, seen: State)
    requires seen.status.phase.NoPhase?
    ensures EffectOf(current, seen, OpenSync(seen)).events == StatusEvents(seen.status, Opened(current.status))
  {
    var events := StatusEvents(seen.status, Opened(current.status));
    assert Reported(current, seen, OpenSync(seen), Opened(current.status)) == events + [] == events;
  }

  /**
   Which caches are too old: a sync can report something twice if and only if the last report of its kind was made
   after what its cache shows.
   */
  lemma TwiceExactly(log: seq<Event>, current: State, seen: State)
    requires Consistent(log, current)
    ensures (exists s :: Projects(s) && NoFewer(s, current) && Twice(log, EffectOf(current, seen, s).events)) <==>
            CountUnseen(log, current, seen) || IssueUnseen(log, seen)
  {
    if CountUnseen(log, current, seen) {
      var s := CountTwice(log, current, seen);
    } else if IssueUnseen(log, seen) {
      var s := IssueTwice(log, current, seen);
    } else {
      forall s | Projects(s) && NoFewer(s, current) ensures !Twice(log, EffectOf(current, seen, s).events) {
        SeenIsOnce(log, current, seen, s);
      }
    }
  }

  // ---- The method ----

  class Invoice {
    /** Everything stored so far, the current state last; a cache shows one of them. */
    var states: seq<State>
    var log: seq<Event>

    predicate Valid()
      reads this
    {
      states != []
    }

    function Current(): State
      requires Valid()
      reads this
    {
      states[|states| - 1]
    }

    constructor ()
      ensures Valid() && states == [BLANK] && log == []
    {
      states, log := [BLANK], [];
    }

    /** patchInvoiceStatus. */
    method PatchStatus(s: Sync)
      requires Valid()
      modifies this
      ensures Valid()
      ensures var e := EffectOf(old(Current()), old(Seen(states, s.lag)), s);
        states == old(states) + [e.state] && log == old(log) + e.events
    {
      var current, seen := Current(), Seen(states, s.lag);
      ghost var e := EffectOf(current, seen, s);
      var (event, count) := AttemptEvent(seen.count, seen.status.phase, s.invoice, s.latest);
      var annotates := s.refreshed || count.Some?;
      var base := seen.status;
      if annotates {
        if !s.annotations.Refused? && count.Some? {
          current := current.(count := count);
        }
        if !s.annotations.Done? {
          Keep(e, current, []);
          return;
        }
        base := current.status;
      }
      if s.crash.AfterAnnotations? {
        Keep(e, current, []);
        return;
      }
      if !s.statusWrite.Refused? && s.projected.Some? {
        current := current.(status := Merged(current.status, base, s.projected.value));
      }
      var events := if s.statusWrite.Done? then StatusEvents(base, current.status) else [];
      Keep(e, current, if s.crash.AfterStatus? then [] else events + Report(event));
    }

    method Keep(ghost e: Effect, next: State, events: seq<Event>)
      requires e == Effect(next, events)
      modifies this
      ensures states == old(states) + [e.state] && log == old(log) + e.events
    {
      states, log := states + [next], log + events;
    }
  }

  /** Any run of syncs, on caches of any age. */
  method SyncAll(run: seq<Sync>) returns (states: seq<State>, log: seq<Event>)
    ensures Story(states, log) == Replay(Effects(), run, |run|)
    ensures (forall i :: 0 <= i < |run| ==> ReadsCurrent(Effects(), run, i)) ==>
            Increasing(Counts(log)) && TimesIssued(log) <= 1
  {
    var invoice := new Invoice();
    for i := 0 to |run|
      invariant invoice.Valid() && Story(invoice.states, invoice.log) == Replay(Effects(), run, i)
    {
      invoice.PatchStatus(run[i]);
    }
    states, log := invoice.states, invoice.log;
    if forall i :: 0 <= i < |run| ==> ReadsCurrent(Effects(), run, i) {
      ReportedOnce(run);
    }
  }
}
