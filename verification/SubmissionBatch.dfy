/** processMessages and submitIndividually: one fetched batch from first look to last settlement. */
module SubmissionBatch {
  import opened Common
  import opened Submission

  // ---- Which requests are made ----

  predicate Attributable(msgs: seq<Message>, resolve: Event -> Option<string>, i: nat)
    requires i < |msgs|
  {
    msgs[i].event.Some? && resolve(msgs[i].event.value).Some?
  }

  /** The messages of a batch that can be submitted, among the first n. */
  function Members(msgs: seq<Message>, resolve: Event -> Option<string>, n: nat): seq<nat>
    requires n <= |msgs|
  {
    if n == 0 then []
    else if Attributable(msgs, resolve, n - 1) then Members(msgs, resolve, n - 1) + [n - 1]
    else Members(msgs, resolve, n - 1)
  }

  ghost predicate Increasing(members: seq<nat>) {
    forall i, j :: 0 <= i < j < |members| ==> members[i] < members[j]
  }

  lemma {:induction false} MembersExactly(msgs: seq<Message>, resolve: Event -> Option<string>, n: nat)
    requires n <= |msgs|
    ensures Increasing(Members(msgs, resolve, n))
    ensures forall i :: i in Members(msgs, resolve, n) <==> 0 <= i < n && Attributable(msgs, resolve, i)
  {
    if n > 0 {
      MembersExactly(msgs, resolve, n - 1);
      var earlier := Members(msgs, resolve, n - 1);
      assert forall k :: 0 <= k < |earlier| ==> earlier[k] in earlier;
    }
  }

  /**
   Whether the k-th answer calls for a further request: the batch was rejected or too large, or an event sent alone
   failed or succeeded on its own account.
   */
  predicate GoesOn(k: nat, v: Verdict) {
    if k == 0 then v.EventRejected? || v.TooLarge?
    else v.Accepted? || v.EventRejected? || v.Retry?
  }

  /** The requests of a batch: all members at once, then one by one while the answers call for it. */
  ghost predicate Protocol(msgs: seq<Message>, resolve: Event -> Option<string>, answers: nat -> Answer,
                           requests: seq<Request>) {
    var members := Members(msgs, resolve, |msgs|);
    && Sent(msgs, resolve, answers, requests) && (requests == [] <==> members == [])
    && Alternates(requests, members) && Continued(requests)
    && (requests != [] ==> |requests| == |members| + 1 || !GoesOn(|requests| - 1, Judge(answers(|requests| - 1))))
  }

  /** First the whole batch, then its members in turn. */
  ghost predicate Alternates(requests: seq<Request>, members: seq<nat>) {
    && |requests| <= |members| + 1
    && forall k :: 0 <= k < |requests| ==> requests[k].members == if k == 0 then members else [members[k - 1]]
  }

  /** Every request but the last called for the next. */
  ghost predicate Continued(requests: seq<Request>) {
    forall k :: 0 <= k < |requests| - 1 ==> GoesOn(k, Judge(requests[k].answer))
  }

  /** Messages, accounts and answers determine the requests. */
  lemma ProtocolDetermines(msgs: seq<Message>, resolve: Event -> Option<string>, answers: nat -> Answer,
                           a: seq<Request>, b: seq<Request>)
    requires Protocol(msgs, resolve, answers, a) && Protocol(msgs, resolve, answers, b)
    ensures a == b
  {
    NotShorter(msgs, resolve, answers, a, b);
    NotShorter(msgs, resolve, answers, b, a);
    forall k | 0 <= k < |a| ensures a[k] == b[k] {
      assert a[k].members == b[k].members;
      assert a[k].events == b[k].events;
    }
  }

  lemma NotShorter(msgs: seq<Message>, resolve: Event -> Option<string>, answers: nat -> Answer, a: seq<Request>,
                   b: seq<Request>)
    requires Protocol(msgs, resolve, answers, a) && Protocol(msgs, resolve, answers, b)
    ensures |a| >= |b|
  {
  }

  // ---- When a message's timer starts ----

  /** When processing starts, how long each request takes, and when the messages arrived. */
  datatype Watch = Watch(start: int, took: nat -> int, arrived: seq<int>)

  /** The marks of message i are its arrival and then the instants after each of the first n requests. */
  ghost predicate Timed(w: Watch, i: nat, marks: seq<int>, n: nat)
    requires i < |w.arrived|
  {
    |marks| == n + 1 && marks[0] == w.arrived[i] && forall k :: 1 <= k <= n ==> marks[k] == Clock(w.start, w.took, k)
  }

  ghost predicate Unbroken(marks: seq<int>, bound: int) {
    forall k :: 0 < k < |marks| ==> marks[k] - marks[k - 1] <= bound
  }

  /** However many requests, no stretch exceeds one fetch and one request. */
  lemma TimedIsUnbroken(w: Watch, i: nat, marks: seq<int>, n: nat, fetchTimeout: int)
    requires i < |w.arrived| && Timed(w, i, marks, n) && w.start - fetchTimeout <= w.arrived[i] <= w.start
    requires forall k :: 0 <= w.took(k) <= REQUEST_TIMEOUT
    ensures Unbroken(marks, fetchTimeout + REQUEST_TIMEOUT)
  {
    forall k | 0 < k < |marks| ensures marks[k] - marks[k - 1] <= fetchTimeout + REQUEST_TIMEOUT {
      assert Clock(w.start, w.took, k) == Clock(w.start, w.took, k - 1) + w.took(k - 1);
      assert 0 <= w.took(k - 1) <= REQUEST_TIMEOUT;
    }
  }

  // ---- The steps ----

  /** The pending messages are members from the j-th on. */
  ghost predicate Remaining(settled: seq<Option<Settlement>>, members: seq<nat>, j: nat) {
    && j <= |members|
    && (forall k :: j <= k < |members| ==> members[k] < |settled| && settled[members[k]].None?)
    && (forall i :: 0 <= i < |settled| && settled[i].None? ==> exists k :: j <= k < |members| && members[k] == i)
  }

  lemma SettledOne(settled: seq<Option<Settlement>>, members: seq<nat>, j: nat, how: Settlement)
    requires Increasing(members) && Remaining(settled, members, j) && j < |members|
    ensures Remaining(settled[members[j] := Some(how)], members, j + 1)
  {
    var next := settled[members[j] := Some(how)];
    forall i | 0 <= i < |next| && next[i].None? ensures exists k :: j + 1 <= k < |members| && members[k] == i {
      var k :| j <= k < |members| && members[k] == i;
      assert k != j;
    }
  }

  /** The messages settled at this instant, and only they, get it as a mark. */
  ghost predicate Stamped(was: seq<Option<Settlement>>, settled: seq<Option<Settlement>>, before: seq<seq<int>>,
                          marks: seq<seq<int>>, now: int) {
    && |was| == |settled| == |before| == |marks|
    && forall i :: 0 <= i < |was| ==>
         && marks[i] == (if was[i].None? && settled[i].Some? then before[i] + [now] else before[i])
         && (was[i].Some? ==> settled[i] == was[i])
  }

  /** After looking at the first i messages: the members are the pending ones among them, and later ones are pending. */
  ghost predicate Sorted(settled: seq<Option<Settlement>>, members: seq<nat>, i: nat) {
    && i <= |settled|
    && (forall k :: 0 <= k < i ==> (settled[k].None? <==> k in members))
    && (forall k :: i <= k < |settled| ==> settled[k].None?)
  }

  lemma SortedAll(msgs: seq<Message>, resolve: Event -> Option<string>, settled: seq<Option<Settlement>>)
    requires |settled| == |msgs| && Sorted(settled, Members(msgs, resolve, |msgs|), |msgs|)
    ensures Remaining(settled, Members(msgs, resolve, |msgs|), 0)
  {
    MembersExactly(msgs, resolve, |msgs|);
    var members := Members(msgs, resolve, |msgs|);
    assert forall k :: 0 <= k < |members| ==> members[k] in members;
  }

  lemma SortedNext(msgs: seq<Message>, resolve: Event -> Option<string>, settled: seq<Option<Settlement>>, i: nat,
                   how: Settlement)
    requires i < |msgs| == |settled| && Sorted(settled, Members(msgs, resolve, i), i)
    ensures Attributable(msgs, resolve, i) ==> Sorted(settled, Members(msgs, resolve, i + 1), i + 1)
    ensures !Attributable(msgs, resolve, i) ==>
            Sorted(settled[i := Some(how)], Members(msgs, resolve, i + 1), i + 1)
  {
    MembersExactly(msgs, resolve, i);
    MembersExactly(msgs, resolve, i + 1);
  }

  lemma OneStamped(was: seq<Option<Settlement>>, settled: seq<Option<Settlement>>, before: seq<seq<int>>,
                   marks: seq<seq<int>>, now: int, i: nat, how: Settlement)
    requires Stamped(was, settled, before, marks, now) && i < |was| && was[i].None? && settled[i].None?
    ensures Stamped(was, settled[i := Some(how)], before, marks[i := marks[i] + [now]], now)
  {
  }

  /** The body of the first loop for message i: drop it, retry it or let it through. */
  method TakeIn(s: Session, i: nat) returns (event: Option<Event>)
    requires s.Valid() && i < |s.msgs| && s.Pending(i) && s.requests == []
    modifies s`settled, s`marks
    ensures s.Valid() && (event.Some? <==> Attributable(s.msgs, s.resolve, i))
    ensures event.Some? ==> s.settled == old(s.settled) && s.marks == old(s.marks)
    ensures event.Some? ==> Attributed(s.msgs, s.resolve, [i], [event.value])
    ensures event.None? ==> s.marks == old(s.marks)[i := old(s.marks)[i] + [s.now]]
    ensures event.None? ==> exists how :: s.settled == old(s.settled)[i := Some(how)]
  {
    if s.msgs[i].event.None? {
      s.Settle(i, Ack);
      return None;
    }
    var uid := s.resolve(s.msgs[i].event.value);
    if uid.None? {
      s.NakMessage(i);
      return None;
    }
    event := Some(s.msgs[i].event.value.(subject := uid.value));
  }

  /** What the first loop has done with the first i messages. */
  ghost predicate TakenIn(msgs: seq<Message>, resolve: Event -> Option<string>, was: seq<Option<Settlement>>,
                          settled: seq<Option<Settlement>>, before: seq<seq<int>>, marks: seq<seq<int>>, now: int,
                          i: nat) {
    && i <= |msgs| == |settled| && Sorted(settled, Members(msgs, resolve, i), i)
    && Stamped(was, settled, before, marks, now)
  }

  lemma LetThrough(msgs: seq<Message>, resolve: Event -> Option<string>, was: seq<Option<Settlement>>,
                   settled: seq<Option<Settlement>>, before: seq<seq<int>>, marks: seq<seq<int>>, now: int, i: nat)
    requires TakenIn(msgs, resolve, was, settled, before, marks, now, i) && i < |msgs|
    requires Attributable(msgs, resolve, i)
    ensures TakenIn(msgs, resolve, was, settled, before, marks, now, i + 1)
    ensures Members(msgs, resolve, i + 1) == Members(msgs, resolve, i) + [i]
  {
    SortedNext(msgs, resolve, settled, i, Ack);
  }

  lemma TurnedAway(msgs: seq<Message>, resolve: Event -> Option<string>, was: seq<Option<Settlement>>,
                   settled: seq<Option<Settlement>>, before: seq<seq<int>>, marks: seq<seq<int>>, now: int, i: nat,
                   how: Settlement)
    requires TakenIn(msgs, resolve, was, settled, before, marks, now, i) && i < |msgs|
    requires !Attributable(msgs, resolve, i) && i < |was| && was[i].None?
    ensures TakenIn(msgs, resolve, was, settled[i := Some(how)], before, marks[i := marks[i] + [now]], now, i + 1)
    ensures Members(msgs, resolve, i + 1) == Members(msgs, resolve, i)
  {
    SortedNext(msgs, resolve, settled, i, how);
    OneStamped(was, settled, before, marks, now, i, how);
  }

  lemma AttributedMore(msgs: seq<Message>, resolve: Event -> Option<string>, members: seq<nat>, events: seq<Event>,
                       i: nat, event: Event)
    requires Attributed(msgs, resolve, members, events) && Attributed(msgs, resolve, [i], [event])
    ensures Attributed(msgs, resolve, members + [i], events + [event])
  {
    assert [i][0] == i && [event][0] == event;
  }

  method TakeNext(s: Session, ghost was: seq<Option<Settlement>>, ghost before: seq<seq<int>>, i: nat)
    returns (event: Option<Event>)
    requires s.Valid() && s.requests == [] && i < |s.msgs| && i < |was| && was[i].None?
    requires TakenIn(s.msgs, s.resolve, was, s.settled, before, s.marks, s.now, i)
    modifies s`settled, s`marks
    ensures s.Valid() && TakenIn(s.msgs, s.resolve, was, s.settled, before, s.marks, s.now, i + 1)
    ensures Members(s.msgs, s.resolve, i + 1) == Members(s.msgs, s.resolve, i) + if event.Some? then [i] else []
    ensures event.Some? ==> Attributed(s.msgs, s.resolve, [i], [event.value])
  {
    ghost var settled, marks := s.settled, s.marks;
    event := TakeIn(s, i);
    if event.Some? {
      LetThrough(s.msgs, s.resolve, was, settled, before, marks, s.now, i);
    } else {
      ghost var how :| s.settled == settled[i := Some(how)];
      TurnedAway(s.msgs, s.resolve, was, settled, before, marks, s.now, i, how);
    }
  }

  /** The first loop of processMessages: drop unusable messages, retry unattributed ones, collect the rest. */
  method Intake(s: Session) returns (members: seq<nat>, events: seq<Event>)
    requires s.Valid() && s.requests == [] && forall i :: 0 <= i < |s.msgs| ==> s.settled[i].None?
    modifies s`settled, s`marks
    ensures s.Valid() && members == Members(s.msgs, s.resolve, |s.msgs|) && Remaining(s.settled, members, 0)
    ensures Attributed(s.msgs, s.resolve, members, events)
    ensures Stamped(old(s.settled), s.settled, old(s.marks), s.marks, s.now)
  {
    members, events := [], [];
    ghost var was, before := s.settled, s.marks;
    for i := 0 to |s.msgs|
      invariant s.Valid() && members == Members(s.msgs, s.resolve, i)
      invariant Attributed(s.msgs, s.resolve, members, events)
      invariant TakenIn(s.msgs, s.resolve, was, s.settled, before, s.marks, s.now, i)
    {
      var event := TakeNext(s, was, before, i);
      if event.Some? {
        AttributedMore(s.msgs, s.resolve, members, events, i, event.value);
        members, events := members + [i], events + [event.value];
      }
    }
    SortedAll(s.msgs, s.resolve, s.settled);
  }

  /** nakAll over members from the j-th on. */
  method NakAll(s: Session, members: seq<nat>, from: nat)
    requires s.Valid() && Increasing(members) && Remaining(s.settled, members, from)
    requires forall j :: from <= j < |members| ==>
      members[j] < |s.msgs| && SettledAs(s, members[j], Nak(Delay(s.retryAfter, s.msgs[members[j]].deliveries)))
    modifies s`settled, s`marks
    ensures s.Valid() && Remaining(s.settled, members, |members|)
    ensures Stamped(old(s.settled), s.settled, old(s.marks), s.marks, s.now)
  {
    for j := from to |members|
      invariant s.Valid() && Remaining(s.settled, members, j)
      invariant Stamped(old(s.settled), s.settled, old(s.marks), s.marks, s.now)
    {
      var how := Nak(Delay(s.retryAfter, s.msgs[members[j]].deliveries));
      SettledOne(s.settled, members, j, how);
      OneStamped(old(s.settled), s.settled, old(s.marks), s.marks, s.now, members[j], how);
      s.NakMessage(members[j]);
    }
  }

  /** Message i would be settled well in this way. */
  ghost predicate SettledAs(s: Session, i: nat, how: Settlement)
    reads s
  {
    i < |s.msgs| && SettledWell(s.msgs, s.resolve, s.retryAfter, s.requests, i, how)
  }

  /** Acks everything a request that was accepted carried. */
  method AckAll(s: Session, members: seq<nat>)
    requires s.Valid() && Increasing(members) && Remaining(s.settled, members, 0)
    requires forall j :: 0 <= j < |members| ==> SettledAs(s, members[j], Ack)
    modifies s`settled, s`marks
    ensures s.Valid() && Remaining(s.settled, members, |members|)
    ensures Stamped(old(s.settled), s.settled, old(s.marks), s.marks, s.now)
  {
    for j := 0 to |members|
      invariant s.Valid() && Remaining(s.settled, members, j)
      invariant Stamped(old(s.settled), s.settled, old(s.marks), s.marks, s.now)
    {
      SettledOne(s.settled, members, j, Ack);
      OneStamped(old(s.settled), s.settled, old(s.marks), s.marks, s.now, members[j], Ack);
      s.Settle(members[j], Ack);
    }
  }

  /** Every pending message got this instant as a mark. */
  ghost predicate Extended(settled: seq<Option<Settlement>>, before: seq<seq<int>>, marks: seq<seq<int>>, now: int) {
    && |settled| == |before| == |marks|
    && forall i :: 0 <= i < |settled| ==> marks[i] == if settled[i].None? then before[i] + [now] else before[i]
  }

  /** extendDeadlines: every message still pending gets a fresh timer. */
  method ExtendDeadlines(s: Session, members: seq<nat>, from: nat)
    requires s.Valid() && Increasing(members) && Remaining(s.settled, members, from)
    modifies s`marks
    ensures s.Valid() && Extended(s.settled, old(s.marks), s.marks, s.now)
  {
    ghost var before := s.marks;
    for j := from to |members|
      invariant s.Valid()
      invariant forall k :: from <= k < j ==> s.marks[members[k]] == before[members[k]] + [s.now]
      invariant forall k :: j <= k < |members| ==> s.marks[members[k]] == before[members[k]]
      invariant forall i :: 0 <= i < |s.settled| && s.settled[i].Some? ==> s.marks[i] == before[i]
    {
      s.Extend(members[j]);
    }
  }

  // ---- What holds while events are sent one by one ----

  /** The pending messages were last extended after the n-th request. */
  ghost predicate PendingTimed(w: Watch, settled: seq<Option<Settlement>>, marks: seq<seq<int>>, n: nat) {
    && |w.arrived| == |settled| == |marks|
    && forall i :: 0 <= i < |settled| && settled[i].None? ==> Timed(w, i, marks[i], n)
  }

  lemma ExtendedTimed(w: Watch, settled: seq<Option<Settlement>>, before: seq<seq<int>>, marks: seq<seq<int>>,
                      now: int, n: nat)
    requires PendingTimed(w, settled, before, n) && Extended(settled, before, marks, now)
    requires now == Clock(w.start, w.took, n + 1)
    ensures PendingTimed(w, settled, marks, n + 1)
  {
  }

  lemma StampedTimed(w: Watch, was: seq<Option<Settlement>>, settled: seq<Option<Settlement>>, before: seq<seq<int>>,
                     marks: seq<seq<int>>, now: int, n: nat)
    requires PendingTimed(w, was, before, n) && Stamped(was, settled, before, marks, now)
    requires now == Clock(w.start, w.took, n + 1)
    ensures PendingTimed(w, settled, marks, n)
    ensures forall i :: 0 <= i < |was| && was[i].None? && settled[i].Some? ==> Timed(w, i, marks[i], n + 1)
  {
  }

  /**
   The k-th member's last mark is the answer to the request that decided it: its own, which is the one after the batch
   and the k members before it, or the last one if that came earlier.
   */
  ghost predicate TimedMember(w: Watch, members: seq<nat>, marks: seq<seq<int>>, last: nat, k: nat)
    requires k < |members|
  {
    members[k] < |w.arrived| == |marks| && Timed(w, members[k], marks[members[k]], 1 + Min(k + 1, last))
  }

  ghost predicate TimedMembers(w: Watch, members: seq<nat>, marks: seq<seq<int>>, last: nat, n: nat) {
    n <= |members| && forall k :: 0 <= k < n ==> TimedMember(w, members, marks, last, k)
  }

  /** What is settled stays as it is. */
  ghost predicate Kept(was: seq<Option<Settlement>>, settled: seq<Option<Settlement>>, before: seq<seq<int>>,
                       marks: seq<seq<int>>) {
    && |was| == |settled| == |before| == |marks|
    && forall i :: 0 <= i < |was| && was[i].Some? ==> settled[i] == was[i] && marks[i] == before[i]
  }

  /** The first j members are settled, each by its own request; the rest was last extended after the n-th request. */
  ghost predicate Times(w: Watch, settled: seq<Option<Settlement>>, marks: seq<seq<int>>, members: seq<nat>, j: nat,
                        n: nat) {
    && Increasing(members) && Remaining(settled, members, j)
    && PendingTimed(w, settled, marks, n) && TimedMembers(w, members, marks, j, j)
  }

  lemma EarlierKept(w: Watch, was: seq<Option<Settlement>>, settled: seq<Option<Settlement>>, before: seq<seq<int>>,
                    marks: seq<seq<int>>, members: seq<nat>, j: nat, last: nat, k: nat)
    requires Kept(was, settled, before, marks) && Increasing(members) && Remaining(was, members, j) && k < j
    requires TimedMember(w, members, before, j, k) && j <= last
    ensures TimedMember(w, members, marks, last, k)
  {
    assert was[members[k]].Some?;
  }

  lemma TimesExtended(w: Watch, settled: seq<Option<Settlement>>, before: seq<seq<int>>, marks: seq<seq<int>>,
                      members: seq<nat>, now: int, j: nat, n: nat)
    requires Times(w, settled, before, members, j, n) && Extended(settled, before, marks, now)
    requires now == Clock(w.start, w.took, n + 1)
    ensures Times(w, settled, marks, members, j, n + 1) && Kept(settled, settled, before, marks)
  {
    ExtendedTimed(w, settled, before, marks, now, n);
    forall k | 0 <= k < j ensures TimedMember(w, members, marks, j, k) {
      assert TimedMember(w, members, before, j, k);
      EarlierKept(w, settled, settled, before, marks, members, j, j, k);
    }
  }

  /** What remains has been settled by the request for the j-th member, up to the n-th. */
  lemma TimesStamped(w: Watch, was: seq<Option<Settlement>>, settled: seq<Option<Settlement>>, before: seq<seq<int>>,
                     marks: seq<seq<int>>, members: seq<nat>, now: int, j: nat, last: nat, n: nat)
    requires Times(w, was, before, members, j, last) && last == j + 1 && j < n <= |members|
    requires Stamped(was, settled, before, marks, now) && now == Clock(w.start, w.took, last + 1)
    requires Remaining(settled, members, n)
    ensures PendingTimed(w, settled, marks, last) && TimedMembers(w, members, marks, last, n)
    ensures Kept(was, settled, before, marks)
  {
    StampedTimed(w, was, settled, before, marks, now, last);
    forall k | 0 <= k < n ensures TimedMember(w, members, marks, last, k) {
      if k < j {
        assert TimedMember(w, members, before, j, k);
        EarlierKept(w, was, settled, before, marks, members, j, last, k);
      } else {
        SettledSince(was, settled, members, j, n, k);
      }
    }
  }

  lemma SettledSince(was: seq<Option<Settlement>>, settled: seq<Option<Settlement>>, members: seq<nat>, j: nat, n: nat,
                     k: nat)
    requires Remaining(was, members, j) && Remaining(settled, members, n) && j <= k < n && |was| == |settled|
    requires Increasing(members)
    ensures members[k] < |was| && was[members[k]].None? && settled[members[k]].Some?
  {
  }

  lemma KeptTwice(a: seq<Option<Settlement>>, b: seq<Option<Settlement>>, c: seq<Option<Settlement>>,
                  before: seq<seq<int>>, between: seq<seq<int>>, after: seq<seq<int>>)
    requires Kept(a, b, before, between) && Kept(b, c, between, after)
    ensures Kept(a, c, before, after)
  {
  }

  // ---- What the requests so far mean ----

  ghost predicate Unserved(msgs: seq<Message>, requests: seq<Request>, members: seq<nat>, j: nat) {
    forall k :: j <= k < |members| ==> members[k] < |msgs| && !Deserved(msgs, requests, members[k])
  }

  ghost predicate AllExcused(msgs: seq<Message>, resolve: Event -> Option<string>, requests: seq<Request>,
                             members: seq<nat>, j: nat) {
    forall k :: j <= k < |members| ==> members[k] < |msgs| && Excused(msgs, resolve, requests, members[k])
  }

  /** The batch and the first j members have been sent, every answer called for another request; the rest waits. */
  ghost predicate Course(msgs: seq<Message>, requests: seq<Request>, members: seq<nat>, j: nat) {
    && |requests| == j + 1 && Alternates(requests, members) && Unserved(msgs, requests, members, j)
    && forall k :: 0 <= k < |requests| ==> GoesOn(k, Judge(requests[k].answer))
  }

  /** What the answer v to the lone request for the j-th member means for it and the rest. */
  ghost predicate Outcome(msgs: seq<Message>, resolve: Event -> Option<string>, requests: seq<Request>,
                          members: seq<nat>, j: nat, v: Verdict) {
    && j < |members| && |requests| == j + 2 && Alternates(requests, members) && Continued(requests)
    && v == Judge(requests[j + 1].answer) && members[j] < |msgs|
    && Unserved(msgs, requests, members, if v.Accepted? || v.EventRejected? then j + 1 else j)
    && (v.Accepted? || v.EventRejected? ==> Deserved(msgs, requests, members[j]))
    && (v.Retry? ==> Excused(msgs, resolve, requests, members[j]))
    && (v.Refused? || v.TooLarge? ==> AllExcused(msgs, resolve, requests, members, j))
  }

  lemma LoneRequest(msgs: seq<Message>, resolve: Event -> Option<string>, requests: seq<Request>, members: seq<nat>,
                    j: nat, r: Request)
    requires Course(msgs, requests, members, j) && j < |members| && Increasing(members) && r.members == [members[j]]
    ensures Outcome(msgs, resolve, requests + [r], members, j, Judge(r.answer))
  {
    var more, v := requests + [r], Judge(r.answer);
    assert more[|requests|] == r && forall k :: 0 <= k < |requests| ==> more[k] == requests[k];
    forall k | j <= k < |members|
      ensures Deserved(msgs, more, members[k]) <==> k == j && (v.Accepted? || v.EventRejected?)
      ensures v.Refused? || v.TooLarge? ==> Excused(msgs, resolve, more, members[k])
    {
      DeservedNext(msgs, requests, r, members[k]);
      assert members[k] in more[0].members;
      if v.Refused? || v.TooLarge? {
        assert Blamed(more, |requests|, members[k]);
      }
    }
    if v.Retry? {
      assert Blamed(more, |requests|, members[j]);
    }
  }

  /** After an answer that settles the j-th member alone, the course continues. */
  lemma CourseNext(msgs: seq<Message>, resolve: Event -> Option<string>, requests: seq<Request>, members: seq<nat>,
                   j: nat, v: Verdict)
    requires Outcome(msgs, resolve, requests, members, j, v) && GoesOn(j + 1, v)
    ensures Course(msgs, requests, members, j + 1)
  {
  }

  // ---- One event after the other ----

  function WatchOf(s: Session, arrived: seq<int>): Watch {
    Watch(s.start, s.took, arrived)
  }

  ghost predicate Underway(s: Session, arrived: seq<int>, members: seq<nat>, j: nat, n: nat)
    reads s
  {
    s.Valid() && Times(WatchOf(s, arrived), s.settled, s.marks, members, j, n)
  }

  /** The requests are over: nothing is pending. */
  ghost predicate Over(s: Session, arrived: seq<int>, members: seq<nat>)
    reads s
  {
    s.Valid() && Ended(WatchOf(s, arrived), s.requests, s.settled, s.marks, members)
  }

  ghost predicate Ended(w: Watch, requests: seq<Request>, settled: seq<Option<Settlement>>, marks: seq<seq<int>>,
                        members: seq<nat>) {
    && Remaining(settled, members, |members|) && requests != []
    && Alternates(requests, members) && Continued(requests)
    && (|requests| == |members| + 1 || !GoesOn(|requests| - 1, Judge(requests[|requests| - 1].answer)))
    && TimedMembers(w, members, marks, |requests| - 1, |members|)
  }

  /** Once the j-th member's answer is dealt with, the next one's turn comes or the requests are over. */
  lemma TurnEnds(w: Watch, msgs: seq<Message>, resolve: Event -> Option<string>, requests: seq<Request>,
                 was: seq<Option<Settlement>>, settled: seq<Option<Settlement>>, before: seq<seq<int>>,
                 marks: seq<seq<int>>, members: seq<nat>, now: int, j: nat, v: Verdict)
    requires Times(w, was, before, members, j, j + 1) && Outcome(msgs, resolve, requests, members, j, v)
    requires Stamped(was, settled, before, marks, now) && now == Clock(w.start, w.took, j + 2)
    requires Remaining(settled, members, if GoesOn(j + 1, v) then j + 1 else |members|)
    ensures GoesOn(j + 1, v) ==>
      Times(w, settled, marks, members, j + 1, j + 1) && Course(msgs, requests, members, j + 1)
    ensures !GoesOn(j + 1, v) ==> Ended(w, requests, settled, marks, members)
    ensures Kept(was, settled, before, marks)
  {
    var n := if GoesOn(j + 1, v) then j + 1 else |members|;
    TimesStamped(w, was, settled, before, marks, members, now, j, j + 1, n);
    if GoesOn(j + 1, v) {
      CourseNext(msgs, resolve, requests, members, j, v);
    }
  }

  /** Extend every deadline, then submit the j-th event on its own. */
  method SendOne(s: Session, ghost arrived: seq<int>, members: seq<nat>, event: Event, j: nat) returns (v: Verdict)
    requires Underway(s, arrived, members, j, j) && Course(s.msgs, s.requests, members, j) && j < |members|
    requires Attributed(s.msgs, s.resolve, [members[j]], [event])
    modifies s`now, s`requests, s`marks
    ensures Underway(s, arrived, members, j, j + 1) && Outcome(s.msgs, s.resolve, s.requests, members, j, v)
    ensures Kept(s.settled, s.settled, old(s.marks), s.marks)
  {
    ghost var w, r := WatchOf(s, arrived), Request([members[j]], [event], s.answers(j + 1));
    LoneRequest(s.msgs, s.resolve, s.requests, members, j, r);
    ExtendDeadlines(s, members, j);
    TimesExtended(w, s.settled, old(s.marks), s.marks, members, s.now, j, j);
    v := s.Submit([members[j]], [event]);
  }

  /** Settle the j-th member by its answer, or give up on it and the rest. */
  method SettleOne(s: Session, members: seq<nat>, j: nat, v: Verdict) returns (goOn: bool)
    requires s.Valid() && Increasing(members) && Remaining(s.settled, members, j)
    requires Outcome(s.msgs, s.resolve, s.requests, members, j, v)
    modifies s`settled, s`marks
    ensures s.Valid() && Remaining(s.settled, members, if goOn then j + 1 else |members|) && goOn == GoesOn(j + 1, v)
    ensures Stamped(old(s.settled), s.settled, old(s.marks), s.marks, s.now)
  {
    var m := members[j];
    goOn := true;
    if v.Accepted? || v.EventRejected? {
      SettledOne(s.settled, members, j, Ack);
      s.Settle(m, Ack);
    } else if v.Retry? {
      SettledOne(s.settled, members, j, Nak(Delay(s.retryAfter, s.msgs[m].deliveries)));
      s.NakMessage(m);
    } else {
      NakAll(s, members, j);
      goOn := false;
    }
  }

  /** One turn of submitIndividually: extend, submit one event, settle it or give up on the rest. */
  method SubmitOne(s: Session, ghost arrived: seq<int>, members: seq<nat>, event: Event, j: nat) returns (goOn: bool)
    requires Underway(s, arrived, members, j, j) && Course(s.msgs, s.requests, members, j) && j < |members|
    requires Attributed(s.msgs, s.resolve, [members[j]], [event])
    modifies s`now, s`requests, s`settled, s`marks
    ensures goOn ==> Underway(s, arrived, members, j + 1, j + 1) && Course(s.msgs, s.requests, members, j + 1)
    ensures !goOn ==> Over(s, arrived, members)
    ensures Kept(old(s.settled), s.settled, old(s.marks), s.marks)
  {
    var v := SendOne(s, arrived, members, event, j);
    ghost var settled, marks := s.settled, s.marks;
    goOn := SettleOne(s, members, j, v);
    TurnEnds(WatchOf(s, arrived), s.msgs, s.resolve, s.requests, settled, s.settled, marks, s.marks, members, s.now, j,
             v);
    KeptTwice(old(s.settled), settled, s.settled, old(s.marks), marks, s.marks);
  }

  /** submitIndividually: one request per event, so that only a rejected event is dropped. */
  method SubmitIndividually(s: Session, ghost arrived: seq<int>, members: seq<nat>, events: seq<Event>)
    requires Underway(s, arrived, members, 0, 0) && Course(s.msgs, s.requests, members, 0)
    requires Attributed(s.msgs, s.resolve, members, events)
    modifies s`now, s`requests, s`settled, s`marks
    ensures Over(s, arrived, members) && Kept(old(s.settled), s.settled, old(s.marks), s.marks)
  {
    for j := 0 to |members|
      invariant Underway(s, arrived, members, j, j) && Course(s.msgs, s.requests, members, j)
      invariant Kept(old(s.settled), s.settled, old(s.marks), s.marks)
    {
      var goOn := SubmitOne(s, arrived, members, events[j], j);
      if !goOn {
        return;
      }
    }
  }

  // ---- The whole batch ----

  /** What the answer v to the batch request means for all its members. */
  ghost predicate BatchOutcome(msgs: seq<Message>, resolve: Event -> Option<string>, requests: seq<Request>,
                               members: seq<nat>, v: Verdict) {
    && |requests| == 1 && requests[0].members == members && v == Judge(requests[0].answer)
    && (v.Accepted? ==> forall k :: 0 <= k < |members| ==>
          members[k] < |msgs| && Deserved(msgs, requests, members[k]))
    && (v.Retry? || v.Refused? ==>
          AllExcused(msgs, resolve, requests, members, 0) && Unserved(msgs, requests, members, 0))
    && (v.EventRejected? || v.TooLarge? ==> Course(msgs, requests, members, 0))
  }

  lemma BatchMeans(msgs: seq<Message>, resolve: Event -> Option<string>, r: Request)
    requires Attributed(msgs, resolve, r.members, r.events)
    ensures BatchOutcome(msgs, resolve, [r], r.members, Judge(r.answer))
  {
    var v, members := Judge(r.answer), r.members;
    forall k | 0 <= k < |members|
      ensures Deserved(msgs, [r], members[k]) <==> v.Accepted?
      ensures v.Retry? || v.Refused? ==> Excused(msgs, resolve, [r], members[k])
    {
      DeservedNext(msgs, [], r, members[k]);
      assert [] + [r] == [r] && members[k] in [r][0].members;
      if v.Retry? || v.Refused? {
        assert Blamed([r], 0, members[k]);
      }
    }
  }

  /** Settled all at once, after the batch request. */
  lemma BatchTimed(w: Watch, was: seq<Option<Settlement>>, settled: seq<Option<Settlement>>, before: seq<seq<int>>,
                   marks: seq<seq<int>>, members: seq<nat>, now: int)
    requires Times(w, was, before, members, 0, 0) && Stamped(was, settled, before, marks, now)
    requires now == Clock(w.start, w.took, 1) && Remaining(settled, members, |members|)
    ensures TimedMembers(w, members, marks, 0, |members|) && Kept(was, settled, before, marks)
  {
    StampedTimed(w, was, settled, before, marks, now, 0);
    forall k | 0 <= k < |members| ensures TimedMember(w, members, marks, 0, k) {
      SettledSince(was, settled, members, 0, |members|, k);
    }
  }

  /** The batch request, and what follows from its answer. */
  method SubmitBatch(s: Session, ghost arrived: seq<int>, members: seq<nat>, events: seq<Event>)
    requires Underway(s, arrived, members, 0, 0) && s.requests == [] && members != []
    requires Attributed(s.msgs, s.resolve, members, events)
    modifies s`now, s`requests, s`settled, s`marks
    ensures Over(s, arrived, members) && Kept(old(s.settled), s.settled, old(s.marks), s.marks)
  {
    BatchMeans(s.msgs, s.resolve, Request(members, events, s.answers(0)));
    var v := s.Submit(members, events);
    assert s.requests == [Request(members, events, s.answers(0))];
    if v.EventRejected? || v.TooLarge? {
      SubmitIndividually(s, arrived, members, events);
      return;
    }
    if v.Accepted? {
      AckAll(s, members);
    } else {
      NakAll(s, members, 0);
    }
    BatchTimed(WatchOf(s, arrived), old(s.settled), s.settled, old(s.marks), s.marks, members, s.now);
  }

  /** How the marks of a whole batch come about: messages never sent are settled at once, the others when decided. */
  ghost predicate Timeline(w: Watch, msgs: seq<Message>, resolve: Event -> Option<string>, requests: seq<Request>,
                           marks: seq<seq<int>>) {
    && |marks| == |msgs| == |w.arrived|
    && (forall i :: 0 <= i < |msgs| && !Attributable(msgs, resolve, i) ==> marks[i] == [w.arrived[i], w.start])
    && (requests != [] ==>
          TimedMembers(w, Members(msgs, resolve, |msgs|), marks, |requests| - 1, |Members(msgs, resolve, |msgs|)|))
  }

  /** processMessages: whatever OpenMeter answers, nothing stays pending. */
  method ProcessMessages(s: Session, ghost arrived: seq<int>)
    requires s.Valid() && s.requests == [] && |arrived| == |s.msgs|
    requires forall i :: 0 <= i < |s.msgs| ==> s.settled[i].None? && s.marks[i] == [arrived[i]]
    modifies s`now, s`requests, s`settled, s`marks
    ensures s.Valid() && (forall i :: 0 <= i < |s.msgs| ==> s.settled[i].Some?)
    ensures Protocol(s.msgs, s.resolve, s.answers, s.requests)
    ensures Timeline(WatchOf(s, arrived), s.msgs, s.resolve, s.requests, s.marks)
  {
    var members, events := Intake(s);
    ghost var settled, marks := s.settled, s.marks;
    TakenTimed(WatchOf(s, arrived), s.msgs, s.resolve, settled, old(s.marks), marks);
    if |members| > 0 {
      SubmitBatch(s, arrived, members, events);
      KeptTimeline(WatchOf(s, arrived), s.msgs, s.resolve, s.requests, settled, s.settled, marks, s.marks);
    }
  }

  /** After the first loop: what was turned away is settled at once, the rest has its arrival as its only mark. */
  ghost predicate Taken(w: Watch, msgs: seq<Message>, resolve: Event -> Option<string>,
                        settled: seq<Option<Settlement>>, marks: seq<seq<int>>) {
    && |marks| == |msgs| == |w.arrived| == |settled|
    && forall i :: 0 <= i < |msgs| && !Attributable(msgs, resolve, i) ==>
         settled[i].Some? && marks[i] == [w.arrived[i], w.start]
  }

  lemma TakenTimed(w: Watch, msgs: seq<Message>, resolve: Event -> Option<string>, settled: seq<Option<Settlement>>,
                   before: seq<seq<int>>, marks: seq<seq<int>>)
    requires |before| == |msgs| == |w.arrived| && forall i :: 0 <= i < |msgs| ==> before[i] == [w.arrived[i]]
    requires exists was :: AllPending(was) && Stamped(was, settled, before, marks, w.start)
    requires Remaining(settled, Members(msgs, resolve, |msgs|), 0)
    ensures Taken(w, msgs, resolve, settled, marks)
    ensures Times(w, settled, marks, Members(msgs, resolve, |msgs|), 0, 0)
  {
    MembersExactly(msgs, resolve, |msgs|);
  }

  ghost predicate AllPending(settled: seq<Option<Settlement>>) {
    forall i :: 0 <= i < |settled| ==> settled[i].None?
  }

  lemma KeptTimeline(w: Watch, msgs: seq<Message>, resolve: Event -> Option<string>, requests: seq<Request>,
                     was: seq<Option<Settlement>>, settled: seq<Option<Settlement>>, before: seq<seq<int>>,
                     marks: seq<seq<int>>)
    requires Taken(w, msgs, resolve, was, before) && Kept(was, settled, before, marks)
    requires Ended(w, requests, settled, marks, Members(msgs, resolve, |msgs|))
    ensures Timeline(w, msgs, resolve, requests, marks)
  {
  }

  /** The ack wait Start settles on. */
  function EffectiveAckWait(configured: int, fetchTimeout: int): int {
    if configured < 2 * (fetchTimeout + REQUEST_TIMEOUT) then 2 * (fetchTimeout + REQUEST_TIMEOUT) else configured
  }

  /**
   From fetch to settlement: the requests are those the answers call for, every message is settled, acked exactly when
   deserved, and never left alone for longer than its ack deadline allows.
   */
  method HandleBatch(msgs: seq<Message>, resolve: Event -> Option<string>, retryAfter: int, fetchTimeout: int,
                     configured: int, now: int, arrived: seq<int>, answers: nat -> Answer, took: nat -> int)
    returns (settled: seq<Settlement>, requests: seq<Request>, marks: seq<seq<int>>)
    requires 0 < retryAfter <= INT64_MAX && fetchTimeout >= 0 && |arrived| == |msgs|
    requires forall i :: 0 <= i < |msgs| ==> now - fetchTimeout <= arrived[i] <= now
    requires forall k :: 0 <= took(k) <= REQUEST_TIMEOUT
    ensures Protocol(msgs, resolve, answers, requests)
    ensures |settled| == |msgs|
    ensures forall i :: 0 <= i < |msgs| ==> (settled[i].Ack? <==> Deserved(msgs, requests, i))
    ensures forall i :: 0 <= i < |msgs| && settled[i].Nak? ==>
      && settled[i].delay == Delay(retryAfter, msgs[i].deliveries) && Excused(msgs, resolve, requests, i)
    ensures Timeline(Watch(now, took, arrived), msgs, resolve, requests, marks)
    ensures forall i :: 0 <= i < |msgs| ==> |marks[i]| >= 2 && Unbroken(marks[i], fetchTimeout + REQUEST_TIMEOUT)
    ensures fetchTimeout + REQUEST_TIMEOUT < EffectiveAckWait(configured, fetchTimeout)
  {
    var s := new Session(msgs, resolve, retryAfter, answers, took, now, arrived);
    ProcessMessages(s, arrived);
    var outcomes := s.settled;
    assert |outcomes| == |msgs| && forall i :: 0 <= i < |msgs| ==> outcomes[i].Some?;
    settled := seq(|outcomes|, i requires 0 <= i < |outcomes| && outcomes[i].Some? => outcomes[i].value);
    requests, marks := s.requests, s.marks;
    forall i | 0 <= i < |msgs|
      ensures SettledWell(msgs, resolve, retryAfter, requests, i, settled[i])
      ensures |marks[i]| >= 2 && Unbroken(marks[i], fetchTimeout + REQUEST_TIMEOUT)
    {
      assert s.settled[i] == Some(settled[i]);
      TimelineUnbroken(Watch(now, took, arrived), msgs, resolve, answers, requests, marks, i, fetchTimeout);
    }
  }

  lemma TimelineUnbroken(w: Watch, msgs: seq<Message>, resolve: Event -> Option<string>, answers: nat -> Answer,
                         requests: seq<Request>, marks: seq<seq<int>>, i: nat, fetchTimeout: int)
    requires Timeline(w, msgs, resolve, requests, marks) && Protocol(msgs, resolve, answers, requests)
    requires i < |msgs| && w.start - fetchTimeout <= w.arrived[i] <= w.start
    requires forall k :: 0 <= w.took(k) <= REQUEST_TIMEOUT
    ensures |marks[i]| >= 2 && Unbroken(marks[i], fetchTimeout + REQUEST_TIMEOUT)
  {
    if Attributable(msgs, resolve, i) {
      MembersExactly(msgs, resolve, |msgs|);
      var members := Members(msgs, resolve, |msgs|);
      var k :| 0 <= k < |members| && members[k] == i;
      assert TimedMember(w, members, marks, |requests| - 1, k);
      TimedIsUnbroken(w, i, marks[i], 1 + Min(k + 1, |requests| - 1), fetchTimeout);
    }
  }
}
