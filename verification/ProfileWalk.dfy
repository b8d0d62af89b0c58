/**
 walkBillingProfiles: a page walk over a list that changes between page reads.
 The list is ordered by creation: creates append, deletes shift what follows towards the front.
 */
module ProfileWalk {
  import opened Common

  /** A profile, known by its id; a filter looks up the rest. */
  type ProfileId = nat

  /** What one walk comes to; last is the index of the last page read. */
  datatype Outcome = Failed | Unstable | Found(profiles: seq<ProfileId>, last: nat)

  /** The server's pages: a fixed size, and the size it reports, which may be missing (zero or less). */
  datatype Paging = Paging(size: nat, reported: int)

  ghost predicate PagingOk(paging: Paging) {
    paging.size > 0 && (paging.reported <= 0 || paging.reported == paging.size)
  }

  /** The matches at positions lo to hi of a list, in order. */
  function MatchesIn(list: seq<ProfileId>, lo: nat, hi: nat, keep: ProfileId -> bool): seq<ProfileId>
    requires hi <= |list|
  {
    if lo >= hi then []
    else MatchesIn(list, lo, hi - 1, keep) + if keep(list[hi - 1]) then [list[hi - 1]] else []
  }

  function Matches(list: seq<ProfileId>, keep: ProfileId -> bool): seq<ProfileId> {
    MatchesIn(list, 0, |list|, keep)
  }

  /** The matches on the page of a list that starts at start. */
  function PageMatches(list: seq<ProfileId>, start: nat, size: nat, keep: ProfileId -> bool): seq<ProfileId> {
    MatchesIn(list, Min(start, |list|), Min(start + size, |list|), keep)
  }

  function PageLength(list: seq<ProfileId>, start: nat, size: nat): nat {
    Min(start + size, |list|) - Min(start, |list|)
  }

  /** Whether the walk ends after page k: it is empty, or the pages read so far reach the total. */
  predicate Ends(list: seq<ProfileId>, paging: Paging, k: nat, items: nat) {
    items == 0 || (k + 1) * (if paging.reported <= 0 then items else paging.reported) >= |list|
  }

  /**
   The walk from page k on, which starts at position start; history holds the list as it is at each page read, and
   reading past its end fails.
   */
  function Walk(history: seq<seq<ProfileId>>, paging: Paging, firstOnly: bool, keep: ProfileId -> bool,
                k: nat, start: nat, total: int, found: seq<ProfileId>): Outcome
    decreases |history| - k
  {
    if k >= |history| then Failed
    else if total >= 0 && |history[k]| < total then Unstable
    else
      var page := PageMatches(history[k], start, paging.size, keep);
      if firstOnly && page != [] then Found(found + [page[0]], k)
      else if Ends(history[k], paging, k, PageLength(history[k], start, paging.size)) then Found(found + page, k)
      else Walk(history, paging, firstOnly, keep, k + 1, start + paging.size, |history[k]|, found + page)
  }

  lemma {:induction false} MatchesSplit(list: seq<ProfileId>, lo: nat, mid: nat, hi: nat, keep: ProfileId -> bool)
    requires lo <= mid <= hi <= |list|
    ensures MatchesIn(list, lo, hi, keep) == MatchesIn(list, lo, mid, keep) + MatchesIn(list, mid, hi, keep)
  {
    if mid < hi {
      MatchesSplit(list, lo, mid, hi - 1, keep);
    } else {
      assert MatchesIn(list, lo, mid, keep) + [] == MatchesIn(list, lo, mid, keep);
    }
  }

  lemma {:induction false} MatchesSame(a: seq<ProfileId>, b: seq<ProfileId>, lo: nat, hi: nat, keep: ProfileId -> bool)
    requires hi <= |a| && hi <= |b| && forall i :: 0 <= i < hi ==> a[i] == b[i]
    ensures MatchesIn(a, lo, hi, keep) == MatchesIn(b, lo, hi, keep)
  {
    if lo < hi {
      MatchesSame(a, b, lo, hi - 1, keep);
    }
  }

  lemma FirstMatch(list: seq<ProfileId>, lo: nat, i: nat, hi: nat, keep: ProfileId -> bool)
    requires lo <= i < hi <= |list| && MatchesIn(list, lo, i, keep) == [] && keep(list[i])
    ensures MatchesIn(list, lo, hi, keep) != [] && MatchesIn(list, lo, hi, keep)[0] == list[i]
  {
    MatchesSplit(list, lo, i + 1, hi, keep);
    assert MatchesIn(list, lo, i + 1, keep) == [list[i]];
  }

  /** The loop over one page's items: what it collects, and whether it returns early. */
  method ScanPage(list: seq<ProfileId>, lo: nat, hi: nat, firstOnly: bool, keep: ProfileId -> bool,
                  found: seq<ProfileId>)
    returns (more: seq<ProfileId>, stop: bool)
    requires lo <= hi <= |list|
    ensures stop <==> firstOnly && MatchesIn(list, lo, hi, keep) != []
    ensures more == found + if stop then [MatchesIn(list, lo, hi, keep)[0]] else MatchesIn(list, lo, hi, keep)
  {
    more, stop := found, false;
    for i := lo to hi
      invariant more == found + MatchesIn(list, lo, i, keep)
      invariant firstOnly ==> MatchesIn(list, lo, i, keep) == []
    {
      if keep(list[i]) {
        more := more + [list[i]];
        if firstOnly {
          FirstMatch(list, lo, i, hi, keep);
          return more, true;
        }
      }
    }
  }

  /** One page: its matches, and whether the walk is over. */
  method ReadPage(list: seq<ProfileId>, paging: Paging, k: nat, start: nat, firstOnly: bool, keep: ProfileId -> bool,
                  found: seq<ProfileId>)
    returns (more: seq<ProfileId>, stop: bool)
    ensures var page := PageMatches(list, start, paging.size, keep); var first := firstOnly && page != [];
      && more == found + (if first then [page[0]] else page)
      && stop == (first || Ends(list, paging, k, PageLength(list, start, paging.size)))
  {
    var lo, hi := Min(start, |list|), Min(start + paging.size, |list|);
    more, stop := ScanPage(list, lo, hi, firstOnly, keep, found);
    if !stop {
      var items := hi - lo;
      var seen := paging.reported;
      if seen <= 0 {
        seen := items;
      }
      stop := items == 0 || (k + 1) * seen >= |list|;
    }
  }

  lemma WalkTurn(history: seq<seq<ProfileId>>, paging: Paging, firstOnly: bool, keep: ProfileId -> bool,
                 k: nat, start: nat, total: int, found: seq<ProfileId>)
    requires k < |history|
    ensures var list := history[k];
      var page := PageMatches(list, start, paging.size, keep);
      var r := Walk(history, paging, firstOnly, keep, k, start, total, found);
      if total >= 0 && |list| < total then r == Unstable
      else if firstOnly && page != [] then r == Found(found + [page[0]], k)
      else if Ends(list, paging, k, PageLength(list, start, paging.size)) then r == Found(found + page, k)
      else r == Walk(history, paging, firstOnly, keep, k + 1, start + paging.size, |list|, found + page)
  {
  }

  /** walkBillingProfiles. */
  method WalkBillingProfiles(history: seq<seq<ProfileId>>, paging: Paging, firstOnly: bool, keep: ProfileId -> bool)
    returns (r: Outcome)
    ensures r == Walk(history, paging, firstOnly, keep, 0, 0, -1, [])
    ensures GapsOk(history) && PagingOk(paging) && history != [] ==> Keeps(r, Matches(history[0], keep), firstOnly)
  {
    if GapsOk(history) && PagingOk(paging) && history != [] {
      StableWalkCovers(history, paging, firstOnly, keep, 0, 0, -1, []);
    }
    var total, found := -1, [];
    var k: nat, start: nat := 0, 0;
    ghost var answer := Walk(history, paging, firstOnly, keep, 0, 0, -1, []);
    while k < |history|
      invariant 0 <= k <= |history|
      invariant answer == Walk(history, paging, firstOnly, keep, k, start, total, found)
      decreases |history| - k
    {
      WalkTurn(history, paging, firstOnly, keep, k, start, total, found);
      if total >= 0 && |history[k]| < total {
        return Unstable;
      }
      total := |history[k]|;
      var stop;
      found, stop := ReadPage(history[k], paging, k, start, firstOnly, keep, found);
      if stop {
        return Found(found, k);
      }
      k, start := k + 1, start + paging.size;
    }
    r := Failed;
  }

  // ---- What changes between two page reads ----

  /** The profiles among the first n that are not gone. */
  function Without(list: seq<ProfileId>, n: nat, gone: set<ProfileId>): seq<ProfileId>
    requires n <= |list|
  {
    if n == 0 then [] else Without(list, n - 1, gone) + if list[n - 1] in gone then [] else [list[n - 1]]
  }

  /** Between two reads the profiles gone are deleted and the created ones appended. */
  ghost predicate Gap(before: seq<ProfileId>, after: seq<ProfileId>, gone: set<ProfileId>, created: seq<ProfileId>) {
    (forall p :: p in gone ==> p in before) && after == Without(before, |before|, gone) + created
  }

  /** The gap holds only creates, or more deletes than creates. */
  ghost predicate GapOk(before: seq<ProfileId>, after: seq<ProfileId>) {
    exists gone, created :: Gap(before, after, gone, created) && (gone == {} || |gone| > |created|)
  }

  ghost predicate GapAt(history: seq<seq<ProfileId>>, k: nat)
    requires k < |history| - 1
  {
    GapOk(history[k], history[k + 1]) && NoRepeats(history[k])
  }

  ghost predicate GapsOk(history: seq<seq<ProfileId>>) {
    forall k :: 0 <= k < |history| - 1 ==> GapAt(history, k)
  }

  /** The profiles gone among the first n. */
  ghost function GoneIn(list: seq<ProfileId>, n: nat, gone: set<ProfileId>): set<ProfileId>
    requires n <= |list|
  {
    set i | 0 <= i < n && list[i] in gone :: list[i]
  }

  lemma {:induction false} WithoutCounts(list: seq<ProfileId>, n: nat, gone: set<ProfileId>)
    requires NoRepeats(list) && n <= |list|
    ensures |Without(list, n, gone)| == n - |GoneIn(list, n, gone)|
  {
    if n > 0 {
      WithoutCounts(list, n - 1, gone);
      var before, p := GoneIn(list, n - 1, gone), list[n - 1];
      assert p !in before;
      if p in gone {
        assert GoneIn(list, n, gone) == before + {p};
      } else {
        assert GoneIn(list, n, gone) == before;
      }
    } else {
      assert GoneIn(list, 0, gone) == {};
    }
  }

  lemma {:induction false} WithoutNone(list: seq<ProfileId>, n: nat)
    requires n <= |list|
    ensures Without(list, n, {}) == list[..n]
  {
    if n > 0 {
      WithoutNone(list, n - 1);
      assert list[..n] == list[..n - 1] + [list[n - 1]];
    }
  }

  /** A count that did not shrink means that nothing was deleted, so the earlier list is a prefix of the later one. */
  lemma NoShrinkIsPrefix(before: seq<ProfileId>, after: seq<ProfileId>)
    requires GapOk(before, after) && NoRepeats(before) && |after| >= |before|
    ensures forall i :: 0 <= i < |before| ==> after[i] == before[i]
  {
    var gone, created :| Gap(before, after, gone, created) && (gone == {} || |gone| > |created|);
    WithoutCounts(before, |before|, gone);
    assert GoneIn(before, |before|, gone) == gone;
    WithoutNone(before, |before|);
  }

  // ---- What a stable walk returns ----

  ghost predicate Extends(h: seq<ProfileId>, list: seq<ProfileId>) {
    |h| <= |list| && forall i :: 0 <= i < |h| ==> list[i] == h[i]
  }

  lemma MatchesPrefix(h: seq<ProfileId>, list: seq<ProfileId>, hi: nat, keep: ProfileId -> bool)
    requires Extends(h, list) && |h| <= hi <= |list|
    ensures Matches(h, keep) <= MatchesIn(list, 0, hi, keep)
  {
    MatchesSame(h, list, 0, |h|, keep);
    MatchesSplit(list, 0, |h|, hi, keep);
  }

  /** The matches among the first start profiles of list have been found, or all those of h. */
  ghost predicate FoundSoFar(h: seq<ProfileId>, list: seq<ProfileId>, start: nat, keep: ProfileId -> bool,
                             found: seq<ProfileId>) {
    (start <= |list| && found == MatchesIn(list, 0, start, keep)) || Matches(h, keep) <= found
  }

  /** Reading the page that starts there extends what has been found; at the end of the list nothing of h is missing. */
  lemma PageStep(h: seq<ProfileId>, list: seq<ProfileId>, start: nat, size: nat, keep: ProfileId -> bool,
                 found: seq<ProfileId>)
    requires Extends(h, list) && FoundSoFar(h, list, start, keep, found)
    ensures var more := found + PageMatches(list, start, size, keep);
      FoundSoFar(h, list, start + size, keep, more) && (start + size >= |list| ==> Matches(h, keep) <= more)
  {
    if start <= |list| && found == MatchesIn(list, 0, start, keep) {
      MatchesSplit(list, 0, start, Min(start + size, |list|), keep);
      MatchesPrefix(h, list, |list|, keep);
    }
  }

  /** The first match found, with none before it, is the oldest. */
  lemma FirstIsOldest(h: seq<ProfileId>, list: seq<ProfileId>, start: nat, size: nat, keep: ProfileId -> bool)
    requires Extends(h, list) && FoundSoFar(h, list, start, keep, [])
    requires PageMatches(list, start, size, keep) != [] && Matches(h, keep) != []
    ensures PageMatches(list, start, size, keep)[0] == Matches(h, keep)[0]
  {
    var hi := Min(start + size, |list|);
    MatchesSplit(list, 0, start, hi, keep);
    MatchesSplit(list, 0, hi, |list|, keep);
    MatchesPrefix(h, list, |list|, keep);
    var page, rest := PageMatches(list, start, size, keep), MatchesIn(list, hi, |list|, keep);
    assert Matches(list, keep) == [] + page + rest;
  }

  /** What the walk has when it comes to read page k, of profiles at start and beyond. */
  ghost predicate Covered(history: seq<seq<ProfileId>>, start: nat, keep: ProfileId -> bool, k: nat, total: int,
                          found: seq<ProfileId>) {
    if k == 0 then total == -1 && found == [] && start == 0
    else
      && k <= |history| && total == |history[k - 1]| && Extends(history[0], history[k - 1])
      && FoundSoFar(history[0], history[k - 1], start, keep, found)
  }

  /** The list at page k, when the walk has not found it shrunk, starts with the list at page k - 1. */
  lemma StillPrefix(history: seq<seq<ProfileId>>, start: nat, keep: ProfileId -> bool, k: nat, total: int,
                    found: seq<ProfileId>)
    requires GapsOk(history) && k < |history| && Covered(history, start, keep, k, total, found)
    requires total >= 0 ==> |history[k]| >= total
    ensures Extends(history[0], history[k]) && FoundSoFar(history[0], history[k], start, keep, found)
  {
    if k > 0 {
      assert GapAt(history, k - 1);
      NoShrinkIsPrefix(history[k - 1], history[k]);
      if start <= total {
        MatchesSame(history[k], history[k - 1], 0, start, keep);
      }
    }
  }

  /** Reading one page keeps the walk's promise. */
  lemma PageCovers(history: seq<seq<ProfileId>>, start: nat, size: nat, keep: ProfileId -> bool, k: nat, total: int,
                   found: seq<ProfileId>)
    requires GapsOk(history) && Covered(history, start, keep, k, total, found)
    requires k < |history| && (total >= 0 ==> |history[k]| >= total)
    ensures var more := found + PageMatches(history[k], start, size, keep);
      && (start + size >= |history[k]| ==> Matches(history[0], keep) <= more)
      && Covered(history, start + size, keep, k + 1, |history[k]|, more)
  {
    StillPrefix(history, start, keep, k, total, found);
    PageStep(history[0], history[k], start, size, keep, found);
  }

  /** The walk ends only at the end of the list, whether or not the server reports its page size. */
  lemma EndsAtEnd(list: seq<ProfileId>, paging: Paging, k: nat, start: nat)
    requires PagingOk(paging) && start == k * paging.size
    ensures Ends(list, paging, k, PageLength(list, start, paging.size)) ==> start + paging.size >= |list|
    ensures start + paging.size == (k + 1) * paging.size
  {
  }

  /** All that was wanted is returned, oldest first; a search for the first returns the oldest. */
  ghost predicate Keeps(r: Outcome, wanted: seq<ProfileId>, firstOnly: bool) {
    r.Found? ==> if firstOnly then wanted != [] ==> r.profiles == [wanted[0]] else wanted <= r.profiles
  }

  /** One turn of the walk: what it returns is what was wanted, and going on it stays covered. */
  lemma TurnCovers(history: seq<seq<ProfileId>>, size: nat, firstOnly: bool, keep: ProfileId -> bool, k: nat,
                   start: nat, total: int, found: seq<ProfileId>, ends: bool)
    requires GapsOk(history) && Covered(history, start, keep, k, total, found) && (firstOnly ==> found == [])
    requires k < |history| && (total >= 0 ==> |history[k]| >= total) && (ends ==> start + size >= |history[k]|)
    ensures var page, wanted := PageMatches(history[k], start, size, keep), Matches(history[0], keep);
      && (firstOnly && page != [] ==> Keeps(Found(found + [page[0]], k), wanted, firstOnly))
      && ((firstOnly ==> page == []) && ends ==> Keeps(Found(found + page, k), wanted, firstOnly))
      && Covered(history, start + size, keep, k + 1, |history[k]|, found + page)
  {
    var page := PageMatches(history[k], start, size, keep);
    PageCovers(history, start, size, keep, k, total, found);
    if firstOnly && page != [] && Matches(history[0], keep) != [] {
      StillPrefix(history, start, keep, k, total, found);
      FirstIsOldest(history[0], history[k], start, size, keep);
    }
  }

  /**
   A walk reported stable has returned every match that was live throughout, oldest first; a walk for the first match
   has returned the oldest one.
   */
  lemma {:induction false} StableWalkCovers(history: seq<seq<ProfileId>>, paging: Paging, firstOnly: bool,
                                            keep: ProfileId -> bool,
                                            k: nat, start: nat, total: int, found: seq<ProfileId>)
    requires GapsOk(history) && PagingOk(paging) && start == k * paging.size
    requires Covered(history, start, keep, k, total, found)
    requires (firstOnly ==> found == []) && history != []
    ensures Keeps(Walk(history, paging, firstOnly, keep, k, start, total, found), Matches(history[0], keep), firstOnly)
    decreases |history| - k
  {
    if k < |history| && (total >= 0 ==> |history[k]| >= total) {
      var page := PageMatches(history[k], start, paging.size, keep);
      var ends := Ends(history[k], paging, k, PageLength(history[k], start, paging.size));
      EndsAtEnd(history[k], paging, k, start);
      TurnCovers(history, paging.size, firstOnly, keep, k, start, total, found, ends);
      if (firstOnly ==> page == []) && !ends {
        StableWalkCovers(history, paging, firstOnly, keep, k + 1, start + paging.size, |history[k]|, found + page);
      }
    }
  }
}
