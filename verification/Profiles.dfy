/**
 Per-account billing profiles: which profile EnsureBillingProfile may write, that it never makes a second one, and when
 a repeated call has nothing to write.
 */
module Profiles {
  import opened Common
  import opened ProfileWalk
  import opened ProfileSlips
  import Decimals

  datatype Alignment = Unset | BySubscription | Anchored(interval: string, day: int)

  /** settings stands for everything copied from the default profile unchanged. */
  datatype Workflow = Workflow(settings: string, dueAfter: string, collection: string, alignment: Alignment)

  /** tag is the account-key metadata, "" when missing; supplier is what OpenMeter keeps of the supplier. */
  datatype Profile = Profile(isDefault: bool, tag: string, name: string, supplier: string, workflow: Workflow)

  datatype Desired = Desired(accountKey: string, name: string, netDays: int, collection: string,
                             frequency: string, day: int)

  const NET_DAYS := 30

  /** netDaysToISODuration. */
  function NetTerms(n: int): string {
    "P" + Decimals.NatText(if n <= 0 then NET_DAYS else n) + "D"
  }

  /** Whether OpenMeter keeps an anchored alignment or stores the subscription one instead. */
  datatype Server = KeepsAnchor | Normalizes

  function Interval(frequency: string): string {
    if frequency == "Quarterly" then "P3M" else if frequency == "Annual" then "P1Y" else "P1M"
  }

  /** time.Date: the day of the month that counting on from the start of January 2024 arrives at. */
  type Calendar = f: int -> int | forall day :: 1 <= f(day) <= 31 && (1 <= day <= 31 ==> f(day) == day)
    witness (day: int) => if 1 <= day <= 31 then day else 1

  function DesiredAlignment(calendar: Calendar, d: Desired): Alignment {
    Anchored(Interval(d.frequency), calendar(Max(d.day, 1)))
  }

  /** desiredWorkflow: the default profile's workflow with what the account controls overridden. */
  function DesiredWorkflow(calendar: Calendar, def: Profile, d: Desired): Workflow {
    def.workflow.(dueAfter := NetTerms(d.netDays),
                  collection := if d.collection != "" then d.collection else def.workflow.collection,
                  alignment := DesiredAlignment(calendar, d))
  }

  function Stored(server: Server, w: Workflow): Workflow {
    if server.Normalizes? && w.alignment.Anchored? then w.(alignment := BySubscription) else w
  }

  /** BillingProfileOwnershipMismatch finds nothing. */
  predicate Owned(p: Profile, accountKey: string) {
    !p.isDefault && p.tag != "" && p.tag == accountKey
  }

  /** billingProfileNeedsUpdate. */
  predicate NeedsUpdate(calendar: Calendar, p: Profile, def: Profile, d: Desired) {
    var want := DesiredWorkflow(calendar, def, d);
    if p.tag != d.accountKey || p.supplier != def.supplier then true
    else if p.workflow.(alignment := Unset) != want.(alignment := Unset) then true
    else
      match p.workflow.alignment
      case Unset => true
      case BySubscription => false
      case Anchored(interval, day) => interval != Interval(d.frequency) || day != Max(d.day, 1)
  }

  function CreatedProfile(calendar: Calendar, server: Server, def: Profile, d: Desired): Profile {
    Profile(false, d.accountKey, d.name, def.supplier, Stored(server, DesiredWorkflow(calendar, def, d)))
  }

  function UpdatedProfile(calendar: Calendar, server: Server, p: Profile, def: Profile, d: Desired): Profile {
    p.(tag := d.accountKey, supplier := def.supplier, workflow := Stored(server, DesiredWorkflow(calendar, def, d)))
  }

  /** After a write a further update is called for exactly when the anchor is kept and the day is above 31. */
  lemma WrittenConvergesExactly(calendar: Calendar, server: Server, p: Profile, def: Profile, d: Desired)
    ensures NeedsUpdate(calendar, UpdatedProfile(calendar, server, p, def, d), def, d) <==>
            server.KeepsAnchor? && d.day > 31
    ensures NeedsUpdate(calendar, CreatedProfile(calendar, server, def, d), def, d) <==>
            server.KeepsAnchor? && d.day > 31
  {
  }

  // ---- What the account's terms ask for ----

  /** A duration of n days. */
  predicate IsDays(text: string, n: nat) {
    && |text| >= 3 && text[0] == 'P' && text[|text| - 1] == 'D'
    && Decimals.AllDigits(text[1..|text| - 1]) && Decimals.TextNat(text[1..|text| - 1]) == n
  }

  /** Counting from day of the month on, once every so many months. */
  predicate Recurs(alignment: Alignment, months: nat, day: int)
    requires alignment.Anchored?
  {
    && (months == 1 || months == 3 || months == 12)
    && alignment.interval == (if months == 12 then "P1Y" else if months == 3 then "P3M" else "P1M")
    && (1 <= day <= 31 ==> alignment.day == day)
  }

  function Months(frequency: string): nat {
    match frequency
    case "Quarterly" => 3
    case "Annual" => 12
    case _ => 1
  }

  /** The default profile with the account's terms: the days to pay, the collection method and the invoice day. */
  predicate OnTerms(p: Profile, def: Profile, d: Desired) {
    && p.tag == d.accountKey && p.supplier == def.supplier && p.workflow.settings == def.workflow.settings
    && IsDays(p.workflow.dueAfter, if d.netDays >= 1 then d.netDays else 30)
    && (d.collection != "" ==> p.workflow.collection == d.collection)
    && (d.collection == "" ==> p.workflow.collection == def.workflow.collection)
    && !p.workflow.alignment.Unset?
    && (p.workflow.alignment.Anchored? ==>
          Recurs(p.workflow.alignment, Months(d.frequency), if d.day >= 1 then d.day else 1))
  }

  /** A profile just written: on the account's terms, anchored unless the server stores another alignment. */
  predicate Written(server: Server, p: Profile, def: Profile, d: Desired) {
    OnTerms(p, def, d) && (server.KeepsAnchor? ==> p.workflow.alignment.Anchored?)
  }

  lemma OnTermsIsSettled(calendar: Calendar, p: Profile, def: Profile, d: Desired)
    requires d.day <= 31 && OnTerms(p, def, d) && p.workflow.dueAfter == NetTerms(d.netDays)
    ensures !NeedsUpdate(calendar, p, def, d)
  {
  }

  lemma WrittenIsOnTerms(calendar: Calendar, server: Server, p: Profile, def: Profile, d: Desired)
    requires p.tag == d.accountKey && p.supplier == def.supplier
    requires p.workflow == Stored(server, DesiredWorkflow(calendar, def, d))
    ensures Written(server, p, def, d)
  {
    TermsAreDays(d.netDays);
  }

  /** A profile that calls for no update is on the account's terms, and so is one just written. */
  lemma SettledIsOnTerms(calendar: Calendar, server: Server, p: Profile, def: Profile, d: Desired)
    ensures !NeedsUpdate(calendar, p, def, d) ==> OnTerms(p, def, d)
    ensures d.day <= 31 && OnTerms(p, def, d) && p.workflow.dueAfter == NetTerms(d.netDays) ==>
            !NeedsUpdate(calendar, p, def, d)
    ensures Written(server, UpdatedProfile(calendar, server, p, def, d), def, d)
    ensures Written(server, CreatedProfile(calendar, server, def, d), def, d)
  {
    TermsAreDays(d.netDays);
    WrittenIsOnTerms(calendar, server, UpdatedProfile(calendar, server, p, def, d), def, d);
    WrittenIsOnTerms(calendar, server, CreatedProfile(calendar, server, def, d), def, d);
    if d.day <= 31 && OnTerms(p, def, d) && p.workflow.dueAfter == NetTerms(d.netDays) {
      OnTermsIsSettled(calendar, p, def, d);
    }
  }

  lemma TermsAreDays(n: int)
    ensures IsDays(NetTerms(n), if n >= 1 then n else 30)
  {
    var days := Decimals.NatText(if n <= 0 then NET_DAYS else n);
    assert NetTerms(n)[1..|NetTerms(n)| - 1] == days;
  }

  ghost predicate AtMostOne(profiles: map<nat, Profile>, accountKey: string) {
    forall i, j :: IsOwn(profiles, accountKey, i) && IsOwn(profiles, accountKey, j) ==> i == j
  }

  predicate IsOwn(profiles: map<nat, Profile>, accountKey: string, id: nat) {
    id in profiles && Owned(profiles[id], accountKey)
  }

  /** isAccountProfile. */
  function OwnFilter(profiles: map<nat, Profile>, accountKey: string): ProfileId -> bool {
    (id: nat) => IsOwn(profiles, accountKey, id)
  }

  // ---- The lookup ----

  const LIST_ATTEMPTS := 3

  /** What one page walk sees: the list as it is at each page read, and the server's pages. */
  datatype Listing = Listing(history: seq<seq<ProfileId>>, paging: Paging)

  /** Other accounts' profiles come and go between the pages; id is listed throughout. */
  ghost predicate Shows(listing: Listing, id: nat) {
    && PagingOk(listing.paging) && Changing(listing.history)
    && forall k :: 0 <= k < |listing.history| ==> id in listing.history[k]
  }

  ghost predicate ShowsOwn(listings: seq<Listing>, profiles: map<nat, Profile>, accountKey: string) {
    forall n, id :: 0 <= n < |listings| && IsOwn(profiles, accountKey, id) ==> Shows(listings[n], id)
  }

  function FirstOf(listing: Listing, keep: ProfileId -> bool): Outcome {
    Walk(listing.history, listing.paging, true, keep, 0, 0, -1, [])
  }

  /** The walk finishes and id has slipped past it. */
  ghost predicate Missed(listing: Listing, keep: ProfileId -> bool, id: nat) {
    FirstOf(listing, keep).Found? && Slips(listing.history, id, listing.paging.size, FirstOf(listing, keep).last)
  }

  /** The account's profile is not the annotated one, and the walk that decided missed it. */
  ghost predicate Overlooked(annotated: Option<nat>, listings: seq<Listing>, used: nat, profiles: map<nat, Profile>,
                             accountKey: string, id: nat) {
    && (annotated.Some? ==> !IsOwn(profiles, accountKey, annotated.value))
    && used < |listings| && Missed(listings[used], OwnFilter(profiles, accountKey), id)
  }

  /** The n-th walk finishes, and every walk before it saw a deletion. */
  ghost predicate AnswersAt(listings: seq<Listing>, keep: ProfileId -> bool, n: nat) {
    && n < |listings| && FirstOf(listings[n], keep).Found?
    && forall k :: 0 <= k < n ==> FirstOf(listings[k], keep).Unstable?
  }

  /** The lookup of an account's profile comes to an answer. */
  ghost predicate Answers(listings: seq<Listing>, keep: ProfileId -> bool) {
    exists n :: AnswersAt(listings, keep, n)
  }

  /** The account's profile can be chosen: the annotation names it, or the lookup comes to an answer. */
  ghost predicate Decidable(annotated: Option<nat>, listings: seq<Listing>, profiles: map<nat, Profile>,
                            accountKey: string) {
    || (annotated.Some? && IsOwn(profiles, accountKey, annotated.value))
    || Answers(listings, OwnFilter(profiles, accountKey))
  }

  /** listBillingProfiles for the first match: a walk that saw a deletion is made again, a few times. */
  method ListBillingProfiles(listings: seq<Listing>, keep: ProfileId -> bool) returns (r: Option<seq<nat>>, used: nat)
    requires |listings| == LIST_ATTEMPTS
    ensures r.Some? <==> Answers(listings, keep)
    ensures r.Some? ==> AnswersAt(listings, keep, used) && FirstOf(listings[used], keep).profiles == r.value
  {
    used := 0;
    while used < |listings|
      invariant used <= |listings|
      invariant forall n :: 0 <= n < used ==> FirstOf(listings[n], keep).Unstable?
    {
      var outcome := WalkBillingProfiles(listings[used].history, listings[used].paging, true, keep);
      if outcome.Failed? {
        return None, used;
      }
      if outcome.Found? {
        assert AnswersAt(listings, keep, used);
        return Some(outcome.profiles), used;
      }
      used := used + 1;
    }
    r := None;
  }

  lemma {:induction false} FoundMatches(history: seq<seq<ProfileId>>, paging: Paging, keep: ProfileId -> bool,
                                        k: nat, start: nat, total: int)
    ensures var r := Walk(history, paging, true, keep, k, start, total, []);
      r.Found? ==> |r.profiles| <= 1 && forall i :: 0 <= i < |r.profiles| ==> keep(r.profiles[i])
    decreases |history| - k
  {
    if k < |history| {
      var list := history[k];
      var page := PageMatches(list, start, paging.size, keep);
      if page == [] {
        FoundMatches(history, paging, keep, k + 1, start + paging.size, |list|);
      } else {
        InMatches(list, Min(start, |list|), Min(start + paging.size, |list|), keep, page[0]);
        assert page[0] in page;
      }
    }
  }

  /** The only profile of an account is found exactly when it does not slip. */
  lemma FoundUnlessMissed(listing: Listing, profiles: map<nat, Profile>, accountKey: string, id: nat)
    requires IsOwn(profiles, accountKey, id) && AtMostOne(profiles, accountKey) && Shows(listing, id)
    requires FirstOf(listing, OwnFilter(profiles, accountKey)).Found?
    ensures FirstOf(listing, OwnFilter(profiles, accountKey)).profiles
            == if Missed(listing, OwnFilter(profiles, accountKey), id) then [] else [id]
  {
    var keep := OwnFilter(profiles, accountKey);
    var r := FirstOf(listing, keep);
    FoundMatches(listing.history, listing.paging, keep, 0, 0, -1);
    WalkLast(listing.history, listing.paging, true, keep, 0, 0, -1, []);
    WalkMissesExactlySlips(listing.history, listing.paging, true, keep, id, r.last);
    if |r.profiles| == 1 {
      assert keep(r.profiles[0]) && r.profiles[0] == id;
      assert r.profiles == [id];
    } else {
      assert r.profiles == [];
    }
  }

  // ---- EnsureBillingProfile ----

  /** Profiles by id. */
  class Store {
    var profiles: map<nat, Profile>
    var nextId: nat
    const server: Server
    const calendar: Calendar

    ghost predicate Valid()
      reads this
    {
      forall i :: i in profiles ==> i < nextId
    }

    constructor (profiles: map<nat, Profile>, nextId: nat, server: Server, calendar: Calendar)
      requires forall i :: i in profiles ==> i < nextId
      ensures Valid() && this.profiles == profiles && this.server == server && this.calendar == calendar
    {
      this.profiles, this.nextId, this.server, this.calendar := profiles, nextId, server, calendar;
    }

    /**
     The profile to converge: the annotated one when it is this account's, else what the walk finds. With one profile at
     most, nothing is found exactly when there is none or it slips past the walk.
     */
    method Choose(annotated: Option<nat>, listings: seq<Listing>, accountKey: string)
      returns (ok: bool, r: Option<nat>, used: nat)
      requires |listings| == LIST_ATTEMPTS && ShowsOwn(listings, profiles, accountKey)
      ensures r.Some? ==> ok && IsOwn(profiles, accountKey, r.value)
      ensures annotated.Some? && IsOwn(profiles, accountKey, annotated.value) ==> ok && r == annotated
      ensures ok <==> Decidable(annotated, listings, profiles, accountKey)
      ensures ok && r.None? ==> AnswersAt(listings, OwnFilter(profiles, accountKey), used)
      ensures ok && AtMostOne(profiles, accountKey) ==> forall id: nat :: IsOwn(profiles, accountKey, id) ==>
        (r == None <==> Overlooked(annotated, listings, used, profiles, accountKey, id))
    {
      used := 0;
      if annotated.Some? && IsOwn(profiles, accountKey, annotated.value) {
        return true, annotated, used;
      }
      var found;
      var keep := OwnFilter(profiles, accountKey);
      found, used := ListBillingProfiles(listings, keep);
      if found.None? {
        return false, None, used;
      }
      FoundMatches(listings[used].history, listings[used].paging, keep, 0, 0, -1);
      r := if |found.value| == 0 then None else Some(found.value[0]);
      if AtMostOne(profiles, accountKey) {
        forall id | IsOwn(profiles, accountKey, id) ensures r == None <==> Missed(listings[used], keep, id) {
          FoundUnlessMissed(listings[used], profiles, accountKey, id);
        }
      }
      ok := true;
    }

    /**
     EnsureBillingProfile, for any annotation value, any changes while it looks, and cut before or after its one write.
     Only profiles of this account are written, and nothing when nothing is to change. A profile is created exactly when
     the account has none or its own is overlooked; so an account with one profile at most keeps at most one if and only
     if its own does not slip past the walk.
     */
    method EnsureBillingProfile(annotated: Option<nat>, listings: seq<Listing>, defaultId: nat, d: Desired, cut: bool)
      returns (r: Option<nat>, used: nat, looked: bool)
      requires Valid() && defaultId in profiles && d.accountKey != ""
      requires |listings| == LIST_ATTEMPTS && ShowsOwn(listings, profiles, d.accountKey)
      modifies this`profiles, this`nextId
      ensures Valid() && OnlyOwn(old(profiles), profiles, d.accountKey)
      ensures looked <==> Decidable(annotated, listings, old(profiles), d.accountKey)
      ensures (r.Some? ==> looked) && (looked && !cut ==> r.Some?)
      ensures r.Some? ==>
        && IsOwn(profiles, d.accountKey, r.value)
        && (NeedsUpdate(calendar, profiles[r.value], old(profiles)[defaultId], d) ==> server.KeepsAnchor? && d.day > 31)
      ensures r.Some? ==> OnTerms(profiles[r.value], old(profiles)[defaultId], d)
      ensures r.Some? && (r.value !in old(profiles) || profiles[r.value] != old(profiles)[r.value]) ==>
        && Written(server, profiles[r.value], old(profiles)[defaultId], d)
        && profiles[r.value].name == (if r.value in old(profiles) then old(profiles)[r.value].name else d.name)
      ensures (forall id :: !IsOwn(old(profiles), d.accountKey, id)) ==> AtMostOne(profiles, d.accountKey)
      ensures old(AtMostOne(profiles, d.accountKey)) ==> forall id: nat :: IsOwn(old(profiles), d.accountKey, id) ==>
        var doubled := looked && !cut && Overlooked(annotated, listings, used, old(profiles), d.accountKey, id);
        OneKeptUnless(doubled, old(profiles), profiles, d.accountKey)
      ensures old(SettledFor(profiles, defaultId, d)) && profiles.Keys == old(profiles).Keys ==>
              profiles == old(profiles)
    {
      var def := profiles[defaultId];
      looked, r, used := Choose(annotated, listings, d.accountKey);
      if !looked {
        return;
      }
      if r.None? {
        if !cut {
          r := Some(nextId);
          CreateBillingProfile(def, d);
        }
      } else {
        SettledIsOnTerms(calendar, server, profiles[r.value], def, d);
        if !NeedsUpdate(calendar, profiles[r.value], def, d) {
          return;
        }
        if cut {
          r := None;
          return;
        }
        UpdateBillingProfile(r.value, def, d);
      }
    }

    method CreateBillingProfile(def: Profile, d: Desired)
      requires Valid() && d.accountKey != ""
      modifies this`profiles, this`nextId
      ensures Valid() && OnlyOwn(old(profiles), profiles, d.accountKey) && profiles.Keys != old(profiles).Keys
      ensures IsOwn(profiles, d.accountKey, old(nextId))
      ensures AtMostOne(profiles, d.accountKey) <==> forall i :: !IsOwn(old(profiles), d.accountKey, i)
      ensures NeedsUpdate(calendar, profiles[old(nextId)], def, d) ==> server.KeepsAnchor? && d.day > 31
      ensures Written(server, profiles[old(nextId)], def, d) && profiles[old(nextId)].name == d.name
    {
      SettledIsOnTerms(calendar, server, def, def, d);
      var made := CreatedProfile(calendar, server, def, d);
      WrittenConvergesExactly(calendar, server, made, def, d);
      CreateEffect(profiles, nextId, made, d.accountKey);
      profiles, nextId := profiles[nextId := made], nextId + 1;
    }

    method UpdateBillingProfile(id: nat, def: Profile, d: Desired)
      requires Valid() && IsOwn(profiles, d.accountKey, id)
      modifies this`profiles
      ensures Valid() && OnlyOwn(old(profiles), profiles, d.accountKey) && profiles.Keys == old(profiles).Keys
      ensures IsOwn(profiles, d.accountKey, id)
      ensures AtMostOne(profiles, d.accountKey) <==> AtMostOne(old(profiles), d.accountKey)
      ensures NeedsUpdate(calendar, profiles[id], def, d) ==> server.KeepsAnchor? && d.day > 31
      ensures Written(server, profiles[id], def, d) && profiles[id].name == old(profiles)[id].name
    {
      SettledIsOnTerms(calendar, server, profiles[id], def, d);
      var updated := UpdatedProfile(calendar, server, profiles[id], def, d);
      WrittenConvergesExactly(calendar, server, profiles[id], def, d);
      UpdateEffect(profiles, id, updated, d.accountKey);
      profiles := profiles[id := updated];
    }

    /** None of the account's profiles calls for an update. */
    ghost predicate SettledFor(profiles: map<nat, Profile>, defaultId: nat, d: Desired)
      requires defaultId in profiles
    {
      forall i :: IsOwn(profiles, d.accountKey, i) ==> !NeedsUpdate(calendar, profiles[i], profiles[defaultId], d)
    }
  }

  /** A second profile is made, and only then are there two. */
  ghost predicate OneKeptUnless(doubled: bool, before: map<nat, Profile>, after: map<nat, Profile>,
                                accountKey: string) {
    && (doubled <==> after.Keys != before.Keys)
    && (doubled <==> !AtMostOne(after, accountKey))
  }

  lemma CreateEffect(before: map<nat, Profile>, id: nat, made: Profile, accountKey: string)
    requires id !in before && Owned(made, accountKey)
    ensures var after := before[id := made];
      && OnlyOwn(before, after, accountKey) && after.Keys != before.Keys && IsOwn(after, accountKey, id)
      && (AtMostOne(after, accountKey) <==> forall i :: !IsOwn(before, accountKey, i))
  {
    var after := before[id := made];
    assert id in after && id !in before;
    if i :| IsOwn(before, accountKey, i) {
      assert IsOwn(after, accountKey, i) && IsOwn(after, accountKey, id);
    } else {
      assert forall i :: IsOwn(after, accountKey, i) && i != id ==> IsOwn(before, accountKey, i);
    }
  }

  lemma UpdateEffect(before: map<nat, Profile>, id: nat, updated: Profile, accountKey: string)
    requires IsOwn(before, accountKey, id) && Owned(updated, accountKey)
    ensures var after := before[id := updated];
      && OnlyOwn(before, after, accountKey) && after.Keys == before.Keys && IsOwn(after, accountKey, id)
      && (AtMostOne(after, accountKey) <==> AtMostOne(before, accountKey))
  {
    var after := before[id := updated];
    assert forall i :: IsOwn(after, accountKey, i) <==> IsOwn(before, accountKey, i);
  }

  /** What differs is the account's own, before and after. */
  ghost predicate OnlyOwn(before: map<nat, Profile>, after: map<nat, Profile>, accountKey: string) {
    && before.Keys <= after.Keys
    && (forall i :: i in before && after[i] != before[i] ==>
          Owned(before[i], accountKey) && Owned(after[i], accountKey))
    && (forall i :: i in after && i !in before ==> Owned(after[i], accountKey))
  }

  /**
   Two complete calls in a row, whatever the annotations say: when the first leaves one profile, p, and the invoice day
   is one of January or the server normalizes, the second writes something if and only if it overlooks p.
   */
  method EnsureTwice(store: Store, annotated1: Option<nat>, first: seq<Listing>, annotated2: Option<nat>,
                     second: nat -> seq<Listing>, defaultId: nat, d: Desired)
    returns (p: Option<nat>, between: map<nat, Profile>, used: nat, looked: bool)
    requires store.Valid() && defaultId in store.profiles && store.profiles[defaultId].isDefault && d.accountKey != ""
    requires |first| == LIST_ATTEMPTS && ShowsOwn(first, store.profiles, d.accountKey)
    requires AtMostOne(store.profiles, d.accountKey)
    requires forall id, n :: IsOwn(store.profiles, d.accountKey, id) && 0 <= n < |first| ==>
      !Missed(first[n], OwnFilter(store.profiles, d.accountKey), id)
    requires forall id :: |second(id)| == LIST_ATTEMPTS
                          && forall n :: 0 <= n < LIST_ATTEMPTS ==> Shows(second(id)[n], id)
    modifies store
    ensures p.Some? <==> Decidable(annotated1, first, old(store.profiles), d.accountKey)
    ensures p.Some? ==> IsOwn(between, d.accountKey, p.value)
    ensures p.Some? ==> (looked <==> Decidable(annotated2, second(p.value), between, d.accountKey))
    ensures p.Some? && looked && (d.day <= 31 || store.server.Normalizes?) ==>
      (store.profiles != between <==> Overlooked(annotated2, second(p.value), used, between, d.accountKey, p.value))
  {
    p, used, looked := store.EnsureBillingProfile(annotated1, first, defaultId, d, false);
    between := store.profiles;
    if p.None? {
      return;
    }
    var again;
    again, used, looked := store.EnsureBillingProfile(annotated2, second(p.value), defaultId, d, false);
  }
}
