/**
 Usage submission: every delivered message is settled once, is dropped only for good reason, and is never left
 unattended past its ack deadline. Times are in nanoseconds.
 */
module Submission {
  import opened Common

  const REQUEST_TIMEOUT := 30 * SECOND
  const MAX_NAK_DELAY := 600 * SECOND
  const MAX_DELIVER := 5000
  const INT64_MAX := 0x7fff_ffff_ffff_ffff

  // ---- Error classification ----

  /** How a request ends: no response, or a status and whether the body complains about the content type. */
  datatype Answer = NoResponse | Response(status: int, contentTypeComplaint: bool)

  datatype ClassifiedError = Transient(status: int) | Permanent(status: int)

  /** classify; None is success. */
  function Classify(a: Answer): (e: Option<ClassifiedError>)
    ensures e.None? <==> a.Response? && 200 <= a.status < 300
    ensures e.Some? && e.value.Transient? <==> a.NoResponse? || a.status in {408, 425, 429} || a.status >= 500
  {
    match a
    case NoResponse => Some(Transient(0))
    case Response(status, _) =>
      if 200 <= status < 300 then None
      else if status == 429 then Some(Transient(status))
      else if status == 401 || status == 403 then Some(Permanent(status))
      else if status == 408 || status == 425 then Some(Transient(status))
      else if status >= 500 then Some(Transient(status))
      else Some(Permanent(status))
  }

  datatype Verdict = Accepted | Retry | EventRejected | TooLarge | Refused

  /** classifyIngest on top of classify: only some permanent errors are the event's fault. */
  function Judge(a: Answer): (v: Verdict)
    ensures v.Accepted? <==> a.Response? && 200 <= a.status < 300
    ensures v.EventRejected? <==> a.Response? && a.status in {400, 422} && !a.contentTypeComplaint
    ensures v.TooLarge? <==> a.Response? && a.status == 413
    ensures v.Retry? <==> a.NoResponse? || a.status in {408, 425, 429} || a.status >= 500
  {
    match Classify(a)
    case None => Accepted
    case Some(Transient(_)) => Retry
    case Some(Permanent(status)) =>
      if status == 400 || status == 422 then if a.contentTypeComplaint then Refused else EventRejected
      else if status == 413 then TooLarge
      else Refused
  }

  // ---- Backoff ----

  function Pow2(n: nat): (p: int)
    ensures p >= 1
  {
    if n == 0 then 1 else 2 * Pow2(n - 1)
  }

  /** The delay after the n-th failed delivery: the base doubled per earlier delivery, capped. */
  function Delay(retryAfter: int, n: nat): int {
    Min(retryAfter * Pow2(if n == 0 then 0 else n - 1), MAX_NAK_DELAY)
  }

  lemma {:induction false} CappedForGood(retryAfter: int, n: nat, m: nat)
    requires 1 <= n <= m && retryAfter * Pow2(n - 1) >= MAX_NAK_DELAY && retryAfter > 0
    ensures retryAfter * Pow2(m - 1) >= MAX_NAK_DELAY
  {
    if n < m {
      CappedForGood(retryAfter, n, m - 1);
      DoublePow(retryAfter, m - 2);
    }
  }

  lemma DoublePow(retryAfter: int, n: nat)
    ensures retryAfter * Pow2(n + 1) == 2 * (retryAfter * Pow2(n))
  {
  }

  /** nakDelay; d is a 64-bit integer in the source and never leaves its range. */
  method NakDelay(retryAfter: int, delivered: nat) returns (d: int)
    requires 0 < retryAfter <= INT64_MAX
    ensures d == Delay(retryAfter, delivered)
  {
    d := retryAfter;
    var i := 1;
    while i < delivered && d < MAX_NAK_DELAY
      invariant 1 <= i && (delivered > 0 ==> i <= delivered) && (delivered == 0 ==> i == 1)
      invariant d == retryAfter * Pow2(i - 1) && 0 < d <= INT64_MAX
      decreases delivered - i
    {
      DoublePow(retryAfter, i - 1);
      d := d * 2;
      i := i + 1;
    }
    if d >= MAX_NAK_DELAY && delivered > 0 {
      CappedForGood(retryAfter, i, delivered);
    }
    d := Min(d, MAX_NAK_DELAY);
  }

  /** The first retry waits for the base, each further one twice as long as the one before, up to the cap. */
  lemma DelayDoubles(retryAfter: int, n: nat)
    requires retryAfter > 0
    ensures Delay(retryAfter, 0) == Delay(retryAfter, 1) == Min(retryAfter, MAX_NAK_DELAY)
    ensures n >= 1 ==> Delay(retryAfter, n + 1) == Min(2 * Delay(retryAfter, n), MAX_NAK_DELAY)
  {
    if n >= 1 {
      DoublePow(retryAfter, n - 1);
    }
  }

  lemma DelayMonotone(retryAfter: int, n: nat)
    requires retryAfter > 0
    ensures Delay(retryAfter, n) <= Delay(retryAfter, n + 1)
  {
    if n > 0 {
      DoublePow(retryAfter, n - 1);
    }
  }

  /** The time between the first delivery and the (n+1)-th when each one fails. */
  function Span(retryAfter: int, n: nat): int {
    if n == 0 then 0 else Span(retryAfter, n - 1) + Delay(retryAfter, n)
  }

  lemma CappedByEighth(retryAfter: int)
    requires retryAfter >= 5 * SECOND
    ensures retryAfter * Pow2(7) >= MAX_NAK_DELAY
  {
    assert Pow2(7) == 128;
  }

  lemma {:induction false} SpanGrows(retryAfter: int, n: nat)
    requires retryAfter >= 5 * SECOND
    ensures Span(retryAfter, n) >= (n - 7) * MAX_NAK_DELAY && Span(retryAfter, n) >= 0
  {
    if n > 0 {
      SpanGrows(retryAfter, n - 1);
      if n >= 8 {
        CappedByEighth(retryAfter);
        CappedForGood(retryAfter, 8, n);
      } else {
        assert retryAfter * Pow2(n - 1) >= 0;
      }
    }
  }

  /** The deliveries of one message span more than the 30 days the stream keeps it. */
  lemma DeliveriesOutlastRetention(retryAfter: int)
    requires retryAfter >= 5 * SECOND
    ensures Span(retryAfter, MAX_DELIVER - 1) > 30 * 24 * 3600 * SECOND
  {
    SpanGrows(retryAfter, MAX_DELIVER - 1);
  }

  // ---- A batch ----

  datatype Event = Event(id: string, subject: string, usage: string)

  /** A delivered message: its event, or None when it cannot be decoded or names no subject. */
  datatype Message = Message(event: Option<Event>, deliveries: nat)

  datatype Settlement = Ack | Nak(delay: int)

  /** One request: which messages it carries, the events as sent, and OpenMeter's answer. */
  datatype Request = Request(members: seq<nat>, events: seq<Event>, answer: Answer)

  /**
   The good reasons to acknowledge message i: it is unusable, a request that carried it was accepted, or it was rejected
   when sent alone after its batch had failed.
   */
  ghost predicate Deserved(msgs: seq<Message>, requests: seq<Request>, i: nat)
    requires i < |msgs|
  {
    || msgs[i].event.None?
    || (exists k :: 0 <= k < |requests| && i in requests[k].members && Judge(requests[k].answer).Accepted?)
    || (exists k :: 0 < k < |requests| && requests[k].members == [i] && Judge(requests[k].answer).EventRejected?)
  }

  /**
   Request k is why message i is retried: it carried i and failed for no fault of an event, or it carried an earlier
   message of the same batch alone and failed in a way that would fail the rest too.
   */
  ghost predicate Blamed(requests: seq<Request>, k: nat, i: nat)
    requires k < |requests|
  {
    var v, members := Judge(requests[k].answer), requests[k].members;
    || ((v.Retry? || v.Refused?) && i in members)
    || ((v.Refused? || v.TooLarge?) && k > 0 && i in requests[0].members && |members| == 1 && members[0] <= i)
  }

  /** The good reasons to retry message i: no account yet, or a request to blame. */
  ghost predicate Excused(msgs: seq<Message>, resolve: Event -> Option<string>, requests: seq<Request>, i: nat)
    requires i < |msgs|
  {
    && msgs[i].event.Some?
    && (resolve(msgs[i].event.value).None? || exists k :: 0 <= k < |requests| && Blamed(requests, k, i))
  }

  /** Every event is sent under the resolved account's id and is otherwise as delivered. */
  ghost predicate Attributed(msgs: seq<Message>, resolve: Event -> Option<string>, members: seq<nat>,
                             events: seq<Event>) {
    && |events| == |members|
    && forall j :: 0 <= j < |members| ==>
         && members[j] < |msgs| && msgs[members[j]].event.Some? && resolve(msgs[members[j]].event.value).Some?
         && events[j] == msgs[members[j]].event.value.(subject := resolve(msgs[members[j]].event.value).value)
  }

  /** The k-th request gets the k-th answer, and every event in it is attributed. */
  ghost predicate Sent(msgs: seq<Message>, resolve: Event -> Option<string>, answers: nat -> Answer,
                       requests: seq<Request>) {
    forall k :: 0 <= k < |requests| ==>
      requests[k].answer == answers(k) && Attributed(msgs, resolve, requests[k].members, requests[k].events)
  }

  /** Message i is settled as the requests call for. */
  ghost predicate SettledWell(msgs: seq<Message>, resolve: Event -> Option<string>, retryAfter: int,
                              requests: seq<Request>, i: nat, how: Settlement)
    requires i < |msgs|
  {
    match how
    case Ack => Deserved(msgs, requests, i)
    case Nak(delay) =>
      && delay == Delay(retryAfter, msgs[i].deliveries)
      && Excused(msgs, resolve, requests, i) && !Deserved(msgs, requests, i)
  }

  /** The time once n requests have been answered. */
  function Clock(start: int, took: nat -> int, n: nat): int {
    if n == 0 then start else Clock(start, took, n - 1) + took(n - 1)
  }

  class Session {
    const msgs: seq<Message>
    const resolve: Event -> Option<string>
    const retryAfter: int
    /** What OpenMeter will answer to the requests, and how long each will take. */
    const answers: nat -> Answer
    const took: nat -> int
    const start: int

    var now: int
    var requests: seq<Request>
    /** Per message: how it was settled; when it arrived, when its ack timer was reset and when it was settled. */
    var settled: seq<Option<Settlement>>
    var marks: seq<seq<int>>

    predicate Pending(i: nat)
      reads this
    {
      i < |settled| && settled[i].None?
    }

    ghost predicate Valid()
      reads this
    {
      && |settled| == |marks| == |msgs| && 0 < retryAfter <= INT64_MAX
      && now == Clock(start, took, |requests|) && Sent(msgs, resolve, answers, requests)
      && (forall i :: 0 <= i < |msgs| && settled[i].Some? ==>
            SettledWell(msgs, resolve, retryAfter, requests, i, settled[i].value))
    }

    constructor (msgs: seq<Message>, resolve: Event -> Option<string>, retryAfter: int, answers: nat -> Answer,
                 took: nat -> int, start: int, arrived: seq<int>)
      requires 0 < retryAfter <= INT64_MAX && |arrived| == |msgs|
      ensures this.msgs == msgs && this.resolve == resolve && this.retryAfter == retryAfter
      ensures this.answers == answers && this.took == took && this.start == start
      ensures Valid() && requests == [] && forall i :: 0 <= i < |msgs| ==> settled[i].None? && marks[i] == [arrived[i]]
    {
      this.msgs, this.resolve, this.retryAfter := msgs, resolve, retryAfter;
      this.answers, this.took, this.start := answers, took, start;
      now, requests := start, [];
      settled := seq(|msgs|, i => None);
      marks := seq(|msgs|, i requires 0 <= i < |arrived| => [arrived[i]]);
    }

    /** Settles a message that is still pending. */
    method Settle(i: nat, how: Settlement)
      requires Valid() && i < |msgs| && Pending(i) && SettledWell(msgs, resolve, retryAfter, requests, i, how)
      modifies this`settled, this`marks
      ensures Valid() && settled == old(settled)[i := Some(how)] && marks == old(marks)[i := old(marks)[i] + [now]]
    {
      marks := marks[i := marks[i] + [now]];
      settled := settled[i := Some(how)];
    }

    /** nak. */
    method NakMessage(i: nat)
      requires Valid() && i < |msgs| && Pending(i)
      requires Excused(msgs, resolve, requests, i) && !Deserved(msgs, requests, i)
      modifies this`settled, this`marks
      ensures Valid() && settled == old(settled)[i := Some(Nak(Delay(retryAfter, msgs[i].deliveries)))]
      ensures marks == old(marks)[i := old(marks)[i] + [now]]
    {
      var d := NakDelay(retryAfter, msgs[i].deliveries);
      Settle(i, Nak(d));
    }

    /** msg.InProgress. */
    method Extend(i: nat)
      requires Valid() && i < |msgs| && Pending(i)
      modifies this`marks
      ensures Valid() && marks == old(marks)[i := old(marks)[i] + [now]]
    {
      marks := marks[i := marks[i] + [now]];
    }

    /** SubmitUsageBatch: the next request, with the next answer. */
    method Submit(members: seq<nat>, events: seq<Event>) returns (v: Verdict)
      requires Valid() && Attributed(msgs, resolve, members, events)
      requires forall j :: 0 <= j < |members| ==> Pending(members[j])
      modifies this`now, this`requests
      ensures Valid() && v == Judge(answers(|old(requests)|))
      ensures requests == old(requests) + [Request(members, events, answers(|old(requests)|))]
    {
      var r := Request(members, events, answers(|requests|));
      forall i | 0 <= i < |msgs| && settled[i].Some?
        ensures SettledWell(msgs, resolve, retryAfter, requests + [r], i, settled[i].value)
      {
        WellStays(msgs, resolve, retryAfter, requests, r, i, settled[i].value);
      }
      now := now + took(|requests|);
      requests := requests + [r];
      v := Judge(r.answer);
    }
  }

  /** A request that does not carry a settled message leaves its settlement right. */
  lemma WellStays(msgs: seq<Message>, resolve: Event -> Option<string>, retryAfter: int, requests: seq<Request>,
                  r: Request, i: nat, how: Settlement)
    requires i < |msgs| && SettledWell(msgs, resolve, retryAfter, requests, i, how) && i !in r.members
    ensures SettledWell(msgs, resolve, retryAfter, requests + [r], i, how)
  {
    DeservedNext(msgs, requests, r, i);
    if how.Nak? {
      ExcusedStays(msgs, resolve, requests, r, i);
    }
  }

  /** What one more request changes about a message's right to be acknowledged. */
  lemma DeservedNext(msgs: seq<Message>, requests: seq<Request>, r: Request, i: nat)
    requires i < |msgs|
    ensures Deserved(msgs, requests + [r], i) <==>
            || Deserved(msgs, requests, i)
            || (i in r.members && Judge(r.answer).Accepted?)
            || (requests != [] && r.members == [i] && Judge(r.answer).EventRejected?)
  {
    var more, n := requests + [r], |requests|;
    assert more[n] == r && forall k :: 0 <= k < n ==> more[k] == requests[k];
  }

  lemma ExcusedStays(msgs: seq<Message>, resolve: Event -> Option<string>, requests: seq<Request>, r: Request, i: nat)
    requires i < |msgs| && Excused(msgs, resolve, requests, i)
    ensures Excused(msgs, resolve, requests + [r], i)
  {
    var more := requests + [r];
    assert forall k :: 0 <= k < |requests| ==> more[k] == requests[k];
    if resolve(msgs[i].event.value).Some? {
      var k :| 0 <= k < |requests| && Blamed(requests, k, i);
      assert Blamed(more, k, i);
    }
  }
}
