/**
 Exactly when the page walk misses a profile. Between two page reads any profiles may be deleted and created; a profile
 that stays is missed if and only if it slips, from beyond the pages read so far to within them.
 */
module ProfileSlips {
  import opened Common
  import opened ProfileWalk

  /** Lists hold a profile once. */
  ghost predicate Distinct(history: seq<seq<ProfileId>>) {
    forall k :: 0 <= k < |history| ==> NoRepeats(history[k])
  }

  ghost function Position(list: seq<ProfileId>, p: ProfileId): (i: nat)
    requires p in list
    ensures i < |list| && list[i] == p
  {
    var i :| 0 <= i < |list| && list[i] == p;
    i
  }

  /** p is in the lists read up to the last page. */
  ghost predicate LiveThroughout(history: seq<seq<ProfileId>>, p: ProfileId, last: nat) {
    last < |history| && forall k :: 0 <= k <= last ==> p in history[k]
  }

  /** No profile moves back: what both lists hold is no later in the second. */
  ghost predicate Shifted(before: seq<ProfileId>, after: seq<ProfileId>) {
    forall i, j :: 0 <= i < |before| && 0 <= j < |after| && before[i] == after[j] ==> j <= i
  }

  ghost predicate ShiftedAt(history: seq<seq<ProfileId>>, k: nat)
    requires k < |history| - 1
  {
    Shifted(history[k], history[k + 1])
  }

  ghost predicate AllShifted(history: seq<seq<ProfileId>>) {
    forall k :: 0 <= k < |history| - 1 ==> ShiftedAt(history, k)
  }

  lemma {:induction false} WithoutPlaces(list: seq<ProfileId>, n: nat, gone: set<ProfileId>, j: nat) returns (i: nat)
    requires n <= |list| && j < |Without(list, n, gone)|
    ensures j <= i < n && Without(list, n, gone)[j] == list[i]
  {
    if j < |Without(list, n - 1, gone)| {
      i := WithoutPlaces(list, n - 1, gone, j);
    } else {
      WithoutShorter(list, n - 1, gone);
      i := n - 1;
    }
  }

  lemma {:induction false} WithoutShorter(list: seq<ProfileId>, n: nat, gone: set<ProfileId>)
    requires n <= |list|
    ensures |Without(list, n, gone)| <= n
  {
    if n > 0 {
      WithoutShorter(list, n - 1, gone);
    }
  }

  /** The created profiles were not listed before. */
  ghost predicate FreshGap(before: seq<ProfileId>, after: seq<ProfileId>, gone: set<ProfileId>,
                           created: seq<ProfileId>) {
    Gap(before, after, gone, created) && forall p :: p in created ==> p !in before
  }

  /** Whatever is deleted, and whatever new profiles are appended, nothing moves back. */
  lemma GapShifts(before: seq<ProfileId>, after: seq<ProfileId>, gone: set<ProfileId>, created: seq<ProfileId>)
    requires FreshGap(before, after, gone, created) && NoRepeats(before)
    ensures Shifted(before, after)
  {
    var kept := Without(before, |before|, gone);
    forall j | |kept| <= j < |after| ensures after[j] !in before {
      assert after[j] == created[j - |kept|];
    }
    forall i, j | 0 <= i < |before| && 0 <= j < |after| && before[i] == after[j] ensures j <= i {
      if j < |kept| {
        var i' := WithoutPlaces(before, |before|, gone, j);
        assert after[j] == kept[j] == before[i'];
      }
    }
  }

  /** Between two reads any profiles are deleted, and any that were not listed before are appended. */
  ghost predicate Changed(before: seq<ProfileId>, after: seq<ProfileId>) {
    exists gone, created :: FreshGap(before, after, gone, created)
  }

  ghost predicate ChangedAt(history: seq<seq<ProfileId>>, k: nat)
    requires k < |history| - 1
  {
    Changed(history[k], history[k + 1])
  }

  /** A list that holds each profile once and changes between page reads. */
  ghost predicate Changing(history: seq<seq<ProfileId>>) {
    Distinct(history) && forall k :: 0 <= k < |history| - 1 ==> ChangedAt(history, k)
  }

  lemma ChangingShifts(history: seq<seq<ProfileId>>)
    requires Changing(history)
    ensures AllShifted(history)
  {
    forall k | 0 <= k < |history| - 1 ensures ShiftedAt(history, k) {
      assert ChangedAt(history, k);
      var gone, created :| FreshGap(history[k], history[k + 1], gone, created);
      GapShifts(history[k], history[k + 1], gone, created);
    }
  }

  // ---- Which pages read a profile ----

  /** p lies on page m of the list as it is when that page is read. */
  ghost predicate ReadAt(history: seq<seq<ProfileId>>, p: ProfileId, size: nat, m: nat) {
    m < |history| && p in history[m] && m * size <= Position(history[m], p) < m * size + size
  }

  /** p lies beyond the first k + 1 pages when page k is read, and within them when the next page is. */
  ghost predicate SlipAt(history: seq<seq<ProfileId>>, p: ProfileId, size: nat, k: nat) {
    && k < |history| - 1 && p in history[k] && p in history[k + 1]
    && Position(history[k], p) >= k * size + size
    && Position(history[k + 1], p) < k * size + size
  }

  ghost predicate Slips(history: seq<seq<ProfileId>>, p: ProfileId, size: nat, last: nat) {
    exists k :: 0 <= k < last && SlipAt(history, p, size, k)
  }

  ghost predicate ReadFrom(history: seq<seq<ProfileId>>, p: ProfileId, size: nat, k: nat, last: nat) {
    exists m :: k <= m <= last && ReadAt(history, p, size, m)
  }

  lemma {:induction false} InMatches(list: seq<ProfileId>, lo: nat, hi: nat, keep: ProfileId -> bool, p: ProfileId)
    requires hi <= |list|
    ensures p in MatchesIn(list, lo, hi, keep) <==> keep(p) && exists i :: lo <= i < hi && list[i] == p
  {
    if lo < hi {
      InMatches(list, lo, hi - 1, keep, p);
    }
  }

  lemma OnPage(list: seq<ProfileId>, start: nat, size: nat, keep: ProfileId -> bool, p: ProfileId)
    requires NoRepeats(list) && p in list && keep(p)
    ensures p in PageMatches(list, start, size, keep) <==> start <= Position(list, p) < start + size
  {
    var lo, hi, i := Min(start, |list|), Min(start + size, |list|), Position(list, p);
    InMatches(list, lo, hi, keep, p);
    assert forall j :: 0 <= j < |list| && list[j] == p ==> j == i;
  }

  /** A search for the first match has only p to find. */
  ghost predicate OnlyMatch(history: seq<seq<ProfileId>>, keep: ProfileId -> bool, p: ProfileId) {
    forall k, q :: 0 <= k < |history| && q in history[k] && keep(q) ==> q == p
  }

  lemma OnlyOnPage(list: seq<ProfileId>, start: nat, size: nat, keep: ProfileId -> bool, p: ProfileId)
    requires forall q :: q in list && keep(q) ==> q == p
    ensures PageMatches(list, start, size, keep) != [] ==> PageMatches(list, start, size, keep)[0] == p
  {
    var page := PageMatches(list, start, size, keep);
    if page != [] {
      InMatches(list, Min(start, |list|), Min(start + size, |list|), keep, page[0]);
      assert page[0] in page;
    }
  }

  /** A finished walk has read p exactly when p was on one of the pages when it was read, and ends beyond p. */
  lemma {:induction false} WalkReads(history: seq<seq<ProfileId>>, paging: Paging, firstOnly: bool,
                                     keep: ProfileId -> bool,
                                     p: ProfileId, k: nat, start: nat, total: int, found: seq<ProfileId>, last: nat)
    requires PagingOk(paging) && Distinct(history) && start == k * paging.size && keep(p)
    requires firstOnly ==> OnlyMatch(history, keep, p)
    requires var r := Walk(history, paging, firstOnly, keep, k, start, total, found); r.Found? && r.last == last
    requires LiveThroughout(history, p, last)
    ensures k <= last && Position(history[last], p) < last * paging.size + paging.size
    ensures p in Walk(history, paging, firstOnly, keep, k, start, total, found).profiles
            <==> p in found || ReadFrom(history, p, paging.size, k, last)
    decreases |history| - k
  {
    WalkTurn(history, paging, firstOnly, keep, k, start, total, found);
    WalkLast(history, paging, firstOnly, keep, k, start, total, found);
    var page := PageMatches(history[k], start, paging.size, keep);
    EndsAtEnd(history[k], paging, k, start);
    OnPage(history[k], start, paging.size, keep, p);
    assert p in page <==> ReadAt(history, p, paging.size, k);
    if firstOnly && page != [] {
      OnlyOnPage(history[k], start, paging.size, keep, p);
      ReadHere(history, p, paging.size, k, last);
    } else if Ends(history[k], paging, k, PageLength(history[k], start, paging.size)) {
      ReadHere(history, p, paging.size, k, last);
    } else {
      WalkReads(history, paging, firstOnly, keep, p, k + 1, start + paging.size, |history[k]|, found + page, last);
      ReadHereOrLater(history, p, paging.size, k, last);
    }
  }

  lemma {:induction false} WalkLast(history: seq<seq<ProfileId>>, paging: Paging, firstOnly: bool,
                                    keep: ProfileId -> bool, k: nat, start: nat, total: int, found: seq<ProfileId>)
    ensures var r := Walk(history, paging, firstOnly, keep, k, start, total, found);
      r.Found? ==> k <= r.last < |history|
    decreases |history| - k
  {
    if k < |history| {
      var page := PageMatches(history[k], start, paging.size, keep);
      WalkLast(history, paging, firstOnly, keep, k + 1, start + paging.size, |history[k]|, found + page);
    }
  }

  lemma ReadHere(history: seq<seq<ProfileId>>, p: ProfileId, size: nat, k: nat, last: nat)
    requires k == last
    ensures ReadFrom(history, p, size, k, last) <==> ReadAt(history, p, size, k)
  {
  }

  lemma ReadHereOrLater(history: seq<seq<ProfileId>>, p: ProfileId, size: nat, k: nat, last: nat)
    requires k < last
    ensures ReadFrom(history, p, size, k, last) <==>
            ReadAt(history, p, size, k) || ReadFrom(history, p, size, k + 1, last)
  {
  }

  // ---- Slipping ----

  lemma MulMonotone(a: nat, b: nat, size: nat)
    requires a <= b
    ensures a * size <= b * size
  {
  }

  lemma {:induction false} NeverBack(history: seq<seq<ProfileId>>, p: ProfileId, i: nat, j: nat, last: nat)
    requires AllShifted(history) && LiveThroughout(history, p, last) && i <= j <= last
    ensures Position(history[j], p) <= Position(history[i], p)
  {
    if i < j {
      NeverBack(history, p, i, j - 1, last);
      assert ShiftedAt(history, j - 1);
    }
  }

  /** What slips past the pages read is on no page when it is read. */
  lemma SlippedIsUnread(history: seq<seq<ProfileId>>, p: ProfileId, size: nat, last: nat, k: nat, m: nat)
    requires AllShifted(history) && LiveThroughout(history, p, last) && k < last && m <= last
    requires SlipAt(history, p, size, k)
    ensures !ReadAt(history, p, size, m)
  {
    if m <= k {
      NeverBack(history, p, m, k, last);
      MulMonotone(m, k, size);
    } else {
      NeverBack(history, p, k + 1, m, last);
      MulMonotone(k + 1, m, size);
    }
  }

  /** What never slips is ahead of the walk until it is read. */
  lemma {:induction false} AheadUntilRead(history: seq<seq<ProfileId>>, p: ProfileId, size: nat, last: nat, k: nat)
    requires LiveThroughout(history, p, last) && k <= last && !Slips(history, p, size, last)
    requires k * size <= Position(history[k], p) && Position(history[last], p) < last * size + size
    ensures ReadFrom(history, p, size, k, last)
    decreases last - k
  {
    if Position(history[k], p) < k * size + size {
      assert ReadAt(history, p, size, k);
    } else {
      assert !SlipAt(history, p, size, k);
      assert (k + 1) * size == k * size + size;
      AheadUntilRead(history, p, size, last, k + 1);
    }
  }

  /**
   A profile live throughout a finished walk is returned if and only if it never slips, whatever else is deleted and
   created between the pages and for every page size.
   */
  lemma WalkMissesExactlySlips(history: seq<seq<ProfileId>>, paging: Paging, firstOnly: bool, keep: ProfileId -> bool,
                               p: ProfileId, last: nat)
    requires PagingOk(paging) && Changing(history) && keep(p)
    requires firstOnly ==> OnlyMatch(history, keep, p)
    requires var r := Walk(history, paging, firstOnly, keep, 0, 0, -1, []); r.Found? && r.last == last
    requires LiveThroughout(history, p, last)
    ensures p in Walk(history, paging, firstOnly, keep, 0, 0, -1, []).profiles <==>
            !Slips(history, p, paging.size, last)
  {
    ChangingShifts(history);
    WalkReads(history, paging, firstOnly, keep, p, 0, 0, -1, [], last);
    if Slips(history, p, paging.size, last) {
      var k :| 0 <= k < last && SlipAt(history, p, paging.size, k);
      forall m: nat | m <= last ensures !ReadAt(history, p, paging.size, m) {
        SlippedIsUnread(history, p, paging.size, last, k, m);
      }
    } else {
      AheadUntilRead(history, p, paging.size, last, 0);
    }
  }

  // ---- When nothing slips, and when something does ----

  /** The totals a finished walk has seen never fell. */
  lemma {:induction false} TotalsGrow(history: seq<seq<ProfileId>>, paging: Paging, firstOnly: bool,
                                      keep: ProfileId -> bool,
                                      k: nat, start: nat, total: int, found: seq<ProfileId>, m: nat)
    requires var r := Walk(history, paging, firstOnly, keep, k, start, total, found); r.Found? && k <= m < r.last
    ensures m + 1 < |history| && |history[m]| <= |history[m + 1]|
    decreases |history| - k
  {
    WalkTurn(history, paging, firstOnly, keep, k, start, total, found);
    WalkLast(history, paging, firstOnly, keep, k, start, total, found);
    var list, next := history[k], start + paging.size;
    var more := found + PageMatches(list, start, paging.size, keep);
    WalkLast(history, paging, firstOnly, keep, k + 1, next, |list|, more);
    if k < m {
      TotalsGrow(history, paging, firstOnly, keep, k + 1, next, |list|, more, m);
    } else {
      WalkTurn(history, paging, firstOnly, keep, k + 1, next, |list|, more);
    }
  }

  /** With only creates, or more deletes than creates, in each gap, a walk reported stable lets nothing slip. */
  lemma {:induction false} StableStays(history: seq<seq<ProfileId>>, paging: Paging, firstOnly: bool,
                                       keep: ProfileId -> bool, p: ProfileId, k: nat)
    requires GapsOk(history) && Distinct(history) && history != [] && p in history[0]
    requires var r := Walk(history, paging, firstOnly, keep, 0, 0, -1, []); r.Found? && k <= r.last
    ensures k < |history| && p in history[k] && Position(history[k], p) == Position(history[0], p)
  {
    WalkLast(history, paging, firstOnly, keep, 0, 0, -1, []);
    if k > 0 {
      StableStays(history, paging, firstOnly, keep, p, k - 1);
      TotalsGrow(history, paging, firstOnly, keep, 0, 0, -1, [], k - 1);
      assert GapAt(history, k - 1);
      NoShrinkIsPrefix(history[k - 1], history[k]);
      var i := Position(history[0], p);
      assert history[k][i] == p;
      SamePlace(history[k], p, i);
    }
  }

  lemma SamePlace(list: seq<ProfileId>, p: ProfileId, i: nat)
    requires NoRepeats(list) && i < |list| && list[i] == p
    ensures p in list && Position(list, p) == i
  {
  }

  lemma StableNeverSlips(history: seq<seq<ProfileId>>, paging: Paging, firstOnly: bool, keep: ProfileId -> bool,
                         p: ProfileId)
    requires GapsOk(history) && Distinct(history) && history != [] && p in history[0]
    ensures var r := Walk(history, paging, firstOnly, keep, 0, 0, -1, []);
      r.Found? ==> LiveThroughout(history, p, r.last) && !Slips(history, p, paging.size, r.last)
  {
    var r := Walk(history, paging, firstOnly, keep, 0, 0, -1, []);
    if r.Found? {
      WalkLast(history, paging, firstOnly, keep, 0, 0, -1, []);
      forall k | 0 <= k <= r.last
        ensures k < |history| && p in history[k] && Position(history[k], p) == Position(history[0], p)
      {
        StableStays(history, paging, firstOnly, keep, p, k);
      }
    }
  }

  /** So the walk returns every match of the first list, as StableWalkCovers also says with their order. */
  lemma StableWalkReturns(history: seq<seq<ProfileId>>, paging: Paging, firstOnly: bool, keep: ProfileId -> bool,
                          p: ProfileId)
    requires GapsOk(history) && Distinct(history) && PagingOk(paging) && history != [] && p in history[0] && keep(p)
    requires firstOnly ==> OnlyMatch(history, keep, p)
    ensures var r := Walk(history, paging, firstOnly, keep, 0, 0, -1, []); r.Found? ==> p in r.profiles
  {
    var r := Walk(history, paging, firstOnly, keep, 0, 0, -1, []);
    if r.Found? {
      StableNeverSlips(history, paging, firstOnly, keep, p);
      WalkReads(history, paging, firstOnly, keep, p, 0, 0, -1, [], r.last);
      AheadUntilRead(history, p, paging.size, r.last, 0);
    }
  }

  /** One profile deleted and one created between two pages: the count stays, b slips, and b is missed. */
  lemma DeleteAndCreateGoUnnoticed(a: ProfileId, b: ProfileId, c: ProfileId, keep: ProfileId -> bool)
    requires a != b && b != c && a != c && keep(a) && keep(b) && keep(c)
    ensures var history := [[a, b], [b, c]];
      && Changing(history) && LiveThroughout(history, b, 1) && Slips(history, b, 1, 1)
      && Walk(history, Paging(1, 1), false, keep, 0, 0, -1, []) == Found([a, c], 1)
  {
    var history := [[a, b], [b, c]];
    assert Without([a, b], 1, {a}) == [] + [];
    assert Without([a, b], 2, {a}) == [] + [b];
    assert FreshGap(history[0], history[1], {a}, [c]);
    assert ChangedAt(history, 0);
    SamePlace([a, b], b, 1);
    SamePlace([b, c], b, 0);
    assert SlipAt(history, b, 1, 0);
    OneItemPage(history, keep, 1, 2, [a]);
    OneItemPage(history, keep, 0, -1, []);
    assert [] + [a] == [a] && [a] + [c] == [a, c];
  }

  /** A page of one item, which matches. */
  lemma OneItemPage(history: seq<seq<ProfileId>>, keep: ProfileId -> bool, k: nat, total: int, found: seq<ProfileId>)
    requires k < |history| && k < |history[k]| && keep(history[k][k]) && total <= |history[k]|
    ensures Walk(history, Paging(1, 1), false, keep, k, k, total, found) ==
      var more := found + [history[k][k]];
      if k + 1 >= |history[k]| then Found(more, k)
      else Walk(history, Paging(1, 1), false, keep, k + 1, k + 1, |history[k]|, more)
  {
    var list, paging := history[k], Paging(1, 1);
    assert MatchesIn(list, k, k + 1, keep) == [] + [list[k]];
    assert PageMatches(list, k, paging.size, keep) == [list[k]];
    assert PageLength(list, k, paging.size) == 1 && (k + 1) * paging.reported == k + 1;
  }
}
