/** The same-files reduction as the planner runs it: the download and upgrade flags of the url objects are
  * flipped in place, and every step is proved to be the step of `ReductionSpec` (planner.py, and
  * `SeadexUrlItem` of seadex_types.py).
  */
module Reduction {
  import opened Wrappers
  import opened ReductionSpec
  import opened ReductionLaws

  class UrlItem {
    const isPublic: bool
    const isFallback: bool
    const keys: set<EpisodeKey>
    const sizes: seq<int>
    var download: bool
    var upgrade: bool

    constructor (isPublic: bool, isFallback: bool, keys: set<EpisodeKey>, sizes: seq<int>)
      ensures View() == Url(isPublic, isFallback, keys, sizes, false, false)
    {
      this.isPublic, this.isFallback, this.keys, this.sizes := isPublic, isFallback, keys, sizes;
      download, upgrade := false, false;
    }

    function View(): Url
      reads this
    {
      Url(isPublic, isFallback, keys, sizes, download, upgrade)
    }

    method Flag(asUpgrade: bool)
      modifies this
      ensures View() == old(View()).Flagged().(upgrade := old(upgrade) || asUpgrade)
    {
      download := true;
      if asUpgrade {
        upgrade := true;
      }
    }

    method Unflag()
      modifies this
      ensures View() == old(View()).Unflagged()
    {
      download := false;
      upgrade := false;
    }
  }

  function UrlsView(urls: seq<UrlItem>): seq<Url>
    reads urls
  {
    seq(|urls|, i requires 0 <= i < |urls| reads urls => urls[i].View())
  }

  predicate Distinct(urls: seq<UrlItem>) {
    forall i, j :: 0 <= i < j < |urls| ==> urls[i] != urls[j]
  }

  /** The first `n` urls unflagged. */
  function UnflaggedUpTo(urls: seq<Url>, n: nat): seq<Url> {
    seq(|urls|, i requires 0 <= i < |urls| => if i < n then urls[i].Unflagged() else urls[i])
  }

  method UnflagAt(urls: seq<UrlItem>, i: nat)
    requires Distinct(urls) && i < |urls|
    modifies urls[i]
    ensures UrlsView(urls) == old(UrlsView(urls))[i := old(UrlsView(urls))[i].Unflagged()]
  {
    ghost var were := UrlsView(urls);
    urls[i].Unflag();
    forall j | 0 <= j < |urls| && j != i ensures urls[j].View() == were[j] {
      assert urls[j] != urls[i];
    }
  }

  /** `_unflag`: unflags a group's urls, recording the positions it drops. */
  method UnflagUrls(urls: seq<UrlItem>, g: nat, dropped: seq<Pos>) returns (after: seq<Pos>)
    requires Distinct(urls)
    modifies urls
    ensures UrlsView(urls) == UnflaggedUrls(old(UrlsView(urls)))
    ensures after == dropped + FlaggedPositions(old(UrlsView(urls)), g, |urls|)
  {
    ghost var were := UrlsView(urls);
    after := dropped;
    for i := 0 to |urls|
      invariant UrlsView(urls) == UnflaggedUpTo(were, i)
      invariant after == dropped + FlaggedPositions(were, g, i)
    {
      assert UrlsView(urls)[i] == were[i];
      if urls[i].download {
        after := after + [Pos(g, i)];
      }
      UnflagAt(urls, i);
    }
  }

  /** Flips on the public urls of a promoted group. */
  method FlagPublicUrls(urls: seq<UrlItem>)
    requires Distinct(urls)
    modifies urls
    ensures UrlsView(urls) == PromotedUrls(old(UrlsView(urls)))
  {
    ghost var were := UrlsView(urls);
    for i := 0 to |urls|
      invariant forall j :: 0 <= j < |urls| ==>
        urls[j].View() == if j < i && were[j].isPublic then were[j].Flagged() else were[j]
    {
      if urls[i].isPublic {
        urls[i].Flag(false);
      }
    }
  }

  /** The size multisets of the flagged, sized urls before `n`. */
  function SeenIdentities(urls: seq<Url>, n: nat): set<multiset<int>>
    requires n <= |urls|
  {
    set j | 0 <= j < n && urls[j].download && urls[j].sizes != [] :: multiset(urls[j].sizes)
  }

  lemma SeenIsRepeat(urls: seq<Url>, i: nat)
    requires i < |urls| && urls[i].download && urls[i].sizes != []
    ensures multiset(urls[i].sizes) in SeenIdentities(urls, i) <==> Repeats(urls, i)
    ensures SeenIdentities(urls, i + 1) == SeenIdentities(urls, i) + {multiset(urls[i].sizes)}
  {
    if Repeats(urls, i) {
      var j :| 0 <= j < i && urls[j].download && SameFiles(urls[i], urls[j]);
      assert |multiset(urls[j].sizes)| == |urls[j].sizes| && |multiset(urls[i].sizes)| == |urls[i].sizes|;
    }
  }

  lemma UnseenIsNoRepeat(urls: seq<Url>, i: nat)
    requires i < |urls| && !(urls[i].download && urls[i].sizes != [])
    ensures !Repeats(urls, i) && SeenIdentities(urls, i + 1) == SeenIdentities(urls, i)
  {
  }

  /** One url's turn: it goes when its files were seen, and is remembered otherwise. */
  method DedupeUrl(u: UrlItem, ghost were: seq<Url>, i: nat, seen: set<multiset<int>>)
    returns (after: set<multiset<int>>)
    requires i < |were| && u.View() == were[i] && seen == SeenIdentities(were, i)
    modifies u
    ensures after == SeenIdentities(were, i + 1)
    ensures u.View() == if Repeats(were, i) then were[i].Unflagged() else were[i]
  {
    if !u.download || u.sizes == [] {
      UnseenIsNoRepeat(were, i);
      return seen;
    }
    SeenIsRepeat(were, i);
    var identity := multiset(u.sizes);
    if identity in seen {
      u.Unflag();
    }
    return seen + {identity};
  }

  /** One group's de-duplication: keeps the first flagged url of each size multiset. */
  method DedupeUrls(urls: seq<UrlItem>)
    requires Distinct(urls)
    modifies urls
    ensures UrlsView(urls) == DedupedUrls(old(UrlsView(urls)))
  {
    ghost var were := UrlsView(urls);
    ghost var goal := DedupedUrls(were);
    var seen: set<multiset<int>> := {};
    for i := 0 to |urls|
      invariant forall j :: 0 <= j < i ==> urls[j].View() == goal[j]
      invariant forall j :: i <= j < |urls| ==> urls[j].View() == were[j]
      invariant seen == SeenIdentities(were, i)
    {
      seen := DedupeUrl(urls[i], were, i, seen);
    }
  }

  datatype GroupItem = GroupItem(coverage: Option<set<EpisodeKey>>, urls: seq<UrlItem>) {
    function View(): Group
      reads urls
    {
      Group(coverage, UrlsView(urls))
    }
  }

  function Items(d: seq<GroupItem>): set<UrlItem> {
    set g, u | g in d && u in g.urls :: u
  }

  function View(d: seq<GroupItem>): Listing
    reads Items(d)
  {
    assert forall g, u :: 0 <= g < |d| && u in d[g].urls ==> d[g] in d && u in Items(d);
    seq(|d|, g requires 0 <= g < |d| reads Items(d) => d[g].View())
  }

  /** No url object sits in two places. */
  ghost predicate Separate(d: seq<GroupItem>) {
    && (forall g :: 0 <= g < |d| ==> Distinct(d[g].urls))
    && (forall g, h, u :: 0 <= g < |d| && 0 <= h < |d| && g != h && u in d[g].urls ==> u !in d[h].urls)
  }

  /** Re-flags one url. */
  method FlagUrl(d: seq<GroupItem>, p: Pos)
    requires Separate(d) && In(View(d), p)
    modifies d[p.group].urls[p.index]
    ensures View(d) == FlagAt(old(View(d)), p)
  {
    ghost var before := View(d);
    var urls := d[p.group].urls;
    assert urls[p.index] in urls;
    urls[p.index].Flag(false);
    assert d[p.group].View().urls == before[p.group].urls[p.index := before[p.group].urls[p.index].Flagged()];
    assert forall h :: 0 <= h < |d| && h != p.group ==> d[h].View() == before[h];
  }

  /** The first place a key stands, or past the end. */
  method Lookup(keys: seq<CoverKey>, key: CoverKey) returns (s: nat)
    ensures s <= |keys| && key !in keys[..s]
    ensures s < |keys| ==> keys[s] == key
  {
    s := 0;
    while s < |keys| && keys[s] != key
      invariant s <= |keys| && key !in keys[..s]
    {
      s := s + 1;
    }
  }

  /** The keys the sets are filed under. */
  function SetKeys(v: Listing, sets: seq<seq<nat>>): seq<CoverKey>
    requires AllSound(|v|, sets)
  {
    seq(|sets|, s requires 0 <= s < |sets| => KeyOf(v, sets[s][0]))
  }

  lemma FiledUnderKey(v: Listing, sets: seq<seq<nat>>, key: CoverKey, s: nat)
    requires AllSound(|v|, sets) && s <= |sets| && key !in SetKeys(v, sets)[..s]
    requires s < |sets| ==> SetKeys(v, sets)[s] == key
    ensures FindSet(v, sets, key) == if s < |sets| then Some(s) else None
  {
    forall t | 0 <= t < s ensures KeyOf(v, sets[t][0]) != key {
      assert SetKeys(v, sets)[..s][t] == KeyOf(v, sets[t][0]);
    }
    FirstSetFound(v, sets, key, s);
  }

  /** Filing group `g` under the set found is the partition's own step. */
  lemma FiledNext(v: Listing, sets: seq<seq<nat>>, g: nat, s: nat)
    requires AllSound(|v|, sets) && g < |v| && s <= |sets| && KeyOf(v, g) !in SetKeys(v, sets)[..s]
    requires s < |sets| ==> SetKeys(v, sets)[s] == KeyOf(v, g)
    ensures AddGroup(v, sets, g) == if s < |sets| then sets[s := sets[s] + [g]] else sets + [[g]]
    ensures SetKeys(v, AddGroup(v, sets, g)) ==
            if s < |sets| then SetKeys(v, sets) else SetKeys(v, sets) + [KeyOf(v, g)]
  {
    FiledUnderKey(v, sets, KeyOf(v, g), s);
  }

  /** `get_same_files_groups`: the partition, in first-seen order. */
  method SameFilesSets(v: Listing) returns (sets: seq<seq<nat>>)
    ensures sets == SetsOf(v, |v|)
  {
    sets := [];
    var keys: seq<CoverKey> := [];
    for g := 0 to |v|
      invariant sets == SetsOf(v, g) && keys == SetKeys(v, sets)
    {
      var s := Lookup(keys, KeyOf(v, g));
      FiledNext(v, sets, g, s);
      if s < |keys| {
        sets := sets[s := sets[s] + [g]];
      } else {
        sets := sets + [[g]];
        keys := keys + [KeyOf(v, g)];
      }
    }
  }

  predicate AllAscending(sets: seq<seq<nat>>) {
    forall s :: 0 <= s < |sets| ==> Ascending(sets[s])
  }

  lemma SetsAreAscending(v: Listing)
    ensures AllAscending(SetsOf(v, |v|))
  {
    SetsPartition(v, |v|);
    forall s | 0 <= s < |SetsOf(v, |v|)| ensures Ascending(SetsOf(v, |v|)[s]) {
      assert GoodSet(v, SetsOf(v, |v|)[s], |v|);
    }
  }

  lemma OneGroupChanged(d: seq<GroupItem>, was: Listing, g: nat, now: Group)
    requires |was| == |d| && g < |d| && d[g].View() == now
    requires forall h :: 0 <= h < |d| && h != g ==> d[h].View() == was[h]
    ensures View(d) == was[g := now]
  {
  }

  /** The listing once the flagged groups the decision drops are unflagged. */
  function GroupsDropped(d: Listing, flagged: seq<nat>, dec: Decision): Listing {
    seq(|d|, g requires 0 <= g < |d| => if g in flagged && Drops(dec, g) then UnflaggedGroup(d[g]) else d[g])
  }

  lemma DropOneMore(d: Listing, flagged: seq<nat>, dec: Decision, i: nat)
    requires Named(|d|, flagged) && i < |flagged|
    requires forall i, j :: 0 <= i < j < |flagged| ==> flagged[i] != flagged[j]
    ensures
      var rg := flagged[i];
      && GroupsDropped(d, flagged[..i], dec)[rg] == d[rg]
      && (Drops(dec, rg) ==>
            && GroupsDropped(d, flagged[..i + 1], dec) ==
              GroupsDropped(d, flagged[..i], dec)[rg := UnflaggedGroup(d[rg])]
            && DroppedOf(d, flagged[..i + 1], dec) ==
                 DroppedOf(d, flagged[..i], dec) + FlaggedPositions(d[rg].urls, rg, |d[rg].urls|))
      && (!Drops(dec, rg) ==>
            && GroupsDropped(d, flagged[..i + 1], dec) == GroupsDropped(d, flagged[..i], dec)
            && DroppedOf(d, flagged[..i + 1], dec) == DroppedOf(d, flagged[..i], dec))
  {
    var more := flagged[..i + 1];
    assert more[..i] == flagged[..i] && more[i] == flagged[i];
    assert flagged[i] !in flagged[..i];
    assert forall g :: g in more <==> g in flagged[..i] || g == flagged[i];
  }

  class DownloadPlanner {
    const interactive: bool
    var skips: Skips

    constructor (interactive: bool)
      ensures this.interactive == interactive && skips == NO_SKIPS
    {
      this.interactive := interactive;
      skips := NO_SKIPS;
    }

    /** `_unflag` on one group of the listing. */
    method UnflagGroup(d: seq<GroupItem>, rg: nat, dropped: seq<Pos>) returns (after: seq<Pos>)
      requires Separate(d) && rg < |d|
      modifies Items(d)
      ensures View(d) == old(View(d))[rg := UnflaggedGroup(old(View(d))[rg])]
      ensures after == dropped + FlaggedPositions(old(View(d))[rg].urls, rg, |old(View(d))[rg].urls|)
    {
      ghost var was := View(d);
      assert d[rg] in d && forall u :: u in d[rg].urls ==> u in Items(d);
      after := UnflagUrls(d[rg].urls, rg, dropped);
      forall h | 0 <= h < |d| && h != rg ensures d[h].View() == was[h] {
        forall i | 0 <= i < |d[h].urls| ensures d[h].urls[i].View() == was[h].urls[i] {
          assert d[h].urls[i] in d[h].urls && d[h].urls[i] !in d[rg].urls;
        }
      }
      OneGroupChanged(d, was, rg, UnflaggedGroup(was[rg]));
    }

    /** Unflags the flagged groups but the one kept, recording the drops (`_unflag_all`, `_drop_losers`). */
    method DropFlagged(d: seq<GroupItem>, flagged: seq<nat>, ghost dec: Decision, keeper: Option<nat>)
      returns (dropped: seq<Pos>)
      requires Separate(d) && Named(|d|, flagged)
      requires forall i, j :: 0 <= i < j < |flagged| ==> flagged[i] != flagged[j]
      requires forall g: nat :: Drops(dec, g) <==> keeper != Some(g)
      modifies Items(d)
      ensures dropped == DroppedOf(old(View(d)), flagged, dec)
      ensures View(d) == GroupsDropped(old(View(d)), flagged, dec)
    {
      ghost var was, now := View(d), View(d);
      dropped := [];
      for i := 0 to |flagged|
        invariant now == View(d)
        invariant dropped == DroppedOf(was, flagged[..i], dec)
        invariant now == GroupsDropped(was, flagged[..i], dec)
      {
        var rg := flagged[i];
        DropOneMore(was, flagged, dec, i);
        if keeper != Some(rg) {
          dropped := UnflagGroup(d, rg, dropped);
          now := View(d);
        }
      }
      assert flagged[..|flagged|] == flagged;
    }

    /** `_rescue_dropped_coverage`: re-flags dropped public urls whose episodes no survivor carries. */
    method RescueDroppedCoverage(d: seq<GroupItem>, names: seq<nat>, dropped: seq<Pos>)
      requires Separate(d) && Named(|d|, names)
      requires AllIn(View(d), names, dropped)
      modifies Items(d)
      ensures View(d) == RescueAll(old(View(d)), SurvivorKeys(old(View(d)), names), dropped).listing
    {
      ghost var was := View(d);
      var survivors := SurvivorKeys(View(d), names);
      ghost var start := survivors;
      for i := 0 to |dropped|
        invariant RescueAll(was, start, dropped[..i]) == Rescue(View(d), survivors)
        invariant AllIn(View(d), names, dropped)
      {
        var p := dropped[i];
        assert In(View(d), p);
        assert dropped[..i + 1][..i] == dropped[..i];
        var u := d[p.group].urls[p.index];
        assert u.View() == At(View(d), p);
        if u.isPublic && !(u.keys <= survivors) {
          assert d[p.group] in d && u in d[p.group].urls;
          FlagUrl(d, p);
          survivors := survivors + u.keys;
        }
      }
      assert dropped[..|dropped|] == dropped;
    }

    /** `_promote_public_alternative`: flips on an unflagged public group covering the set, if one may stand in. */
    method PromotePublicAlternative(d: seq<GroupItem>, names: seq<nat>) returns (promoted: Option<nat>)
      requires Separate(d) && Named(|d|, names)
      modifies Items(d)
      ensures promoted == Promoted(old(View(d)), names)
      ensures View(d) == if promoted.Some? then
                           old(View(d))[promoted.value := PromotedGroup(old(View(d))[promoted.value])]
                         else old(View(d))
    {
      ghost var was := View(d);
      promoted := Promoted(View(d), names);
      if promoted.None? {
        return;
      }
      var rg := promoted.value;
      assert d[rg] in d && forall u :: u in d[rg].urls ==> u in Items(d);
      FlagPublicUrls(d[rg].urls);
      forall h | 0 <= h < |d| && h != rg ensures d[h].View() == was[h] {
        forall i | 0 <= i < |d[h].urls| ensures d[h].urls[i].View() == was[h].urls[i] {
          assert d[h].urls[i] in d[h].urls && d[h].urls[i] !in d[rg].urls;
        }
      }
      OneGroupChanged(d, was, rg, PromotedGroup(was[rg]));
    }

    method Note(groups: seq<nat>, reason: Reason, warning: bool)
      modifies this
      ensures skips == old(skips).(notices := old(skips).notices + [Notice(groups, reason, warning)])
    {
      skips := skips.(notices := skips.notices + [Notice(groups, reason, warning)]);
    }

    /** The public alternative takes the flagged groups' place, if the set has one. */
    method GrabAlternative(d: seq<GroupItem>, names: seq<nat>, flagged: seq<nat>, remaining: bool)
      returns (grabbed: bool, dropped: seq<Pos>)
      requires Separate(d) && Named(|d|, names) && Ascending(names) && flagged == FlaggedOf(View(d), names)
      modifies this, Items(d)
      ensures grabbed == Promoted(old(View(d)), names).Some?
      ensures !grabbed ==> View(d) == old(View(d)) && skips == old(skips)
      ensures grabbed ==>
        var g := Promoted(old(View(d)), names).value;
        && View(d) == DecidedAll(old(View(d)), names, Promote(g))
        && dropped == DroppedOf(old(View(d)), flagged, Promote(g))
        && skips == old(skips).(notices := old(skips).notices + [Notice(flagged, StandsIn(g, remaining), false)])
    {
      ghost var v := View(d);
      PromotedIsPromotable(v, names);
      WhereDistinct(v, names, IsFlagged);
      var promoted := PromotePublicAlternative(d, names);
      if promoted.None? {
        return false, [];
      }
      Note(flagged, StandsIn(promoted.value, remaining), false);
      grabbed := true;
      dropped := DropFlagged(d, flagged, Promote(promoted.value), None);
      PromotionIsReduction(v, names, promoted.value);
    }

    /** The set is given up: every flagged group goes, with a warning. */
    method SkipSet(d: seq<GroupItem>, flagged: seq<nat>, fallbackRides: bool) returns (dropped: seq<Pos>)
      requires Separate(d) && Named(|d|, flagged) && Ascending(flagged)
      modifies this, Items(d)
      ensures View(d) == GroupsDropped(old(View(d)), flagged, DropAll)
      ensures dropped == DroppedOf(old(View(d)), flagged, DropAll)
      ensures skips == Skips(true, old(skips).groups + flagged,
                             old(skips).notices
                             + [Notice(flagged, if fallbackRides then StaleHeld else NoPublic, true)],
                             old(skips).staleHeld || fallbackRides, old(skips).fallbackCovered)
    {
      if fallbackRides {
        skips := skips.(staleHeld := true);
      }
      Note(flagged, if fallbackRides then StaleHeld else NoPublic, true);
      skips := skips.(skipped := true, groups := skips.groups + flagged);
      dropped := DropFlagged(d, flagged, DropAll, None);
    }

    /** A set nothing is grabbed in: an owned fallback stands in, or the set is skipped. */
    method CoverOrSkip(d: seq<GroupItem>, flagged: seq<nat>, pending: bool, fallbackRides: bool)
      returns (dropped: seq<Pos>)
      requires Separate(d) && Named(|d|, flagged) && Ascending(flagged)
      modifies this, Items(d)
      ensures View(d) == GroupsDropped(old(View(d)), flagged, DropAll)
      ensures dropped == DroppedOf(old(View(d)), flagged, DropAll)
      ensures skips == GivenUp(flagged, pending, fallbackRides, old(skips))
    {
      if !pending && fallbackRides {
        skips := skips.(fallbackCovered := true);
        Note(flagged, FallbackOwned, false);
        dropped := DropFlagged(d, flagged, DropAll, None);
      } else {
        dropped := SkipSet(d, flagged, fallbackRides);
      }
    }

    /** A set with no public group flagged: an alternative or an owned fallback stands in, or the set is skipped. */
    method ReducePrivateOnly(d: seq<GroupItem>, names: seq<nat>, flagged: seq<nat>) returns (dropped: seq<Pos>)
      requires Separate(d) && Named(|d|, names) && Ascending(names) && flagged == FlaggedOf(View(d), names)
      requires Where(View(d), flagged, IsPublicGroup) == []
      modifies this, Items(d)
      ensures View(d) == Reduced(old(View(d)), names)
      ensures skips == Reported(old(View(d)), names, old(skips))
      ensures dropped == DroppedOf(old(View(d)), flagged, Decide(old(View(d)), names))
    {
      var v := View(d);
      WhereDistinct(v, names, IsFlagged);
      if UpgradePending(v, names) {
        var grabbed;
        grabbed, dropped := GrabAlternative(d, names, flagged, false);
        if grabbed {
          return;
        }
      }
      var fallbackRides := exists g :: g in names && IsFallbackGroup(v[g]);
      dropped := CoverOrSkip(d, flagged, UpgradePending(v, names), fallbackRides);
      DropsAreReduction(v, names, DropAll);
    }

    /** No public group is wholly addable: an alternative stands in, or the first public group is kept. */
    method KeepOrGrab(d: seq<GroupItem>, names: seq<nat>, flagged: seq<nat>, first: nat)
      returns (keeper: Option<nat>, dropped: seq<Pos>)
      requires Separate(d) && Named(|d|, names) && Ascending(names) && flagged == FlaggedOf(View(d), names)
      modifies this, Items(d)
      ensures
        var v := old(View(d));
        var grabs := UpgradePending(v, names) && Promoted(v, names).Some?;
        && (grabs ==>
              var g := Promoted(v, names).value;
              && keeper == None
              && View(d) == DecidedAll(v, names, Promote(g))
              && dropped == DroppedOf(v, flagged, Promote(g))
              && skips == old(skips).(notices := old(skips).notices + [Notice(flagged, StandsIn(g, true), false)]))
        && (!grabs ==>
              && keeper == Some(first)
              && View(d) == v
              && skips == old(skips).(staleHeld := old(skips).staleHeld
                                                   || (UpgradePending(v, names) && RidesUnflagged(v, names))))
    {
      var v := View(d);
      dropped := [];
      if UpgradePending(v, names) {
        var grabbed;
        grabbed, dropped := GrabAlternative(d, names, flagged, true);
        if grabbed {
          return None, dropped;
        }
        if RidesUnflagged(v, names) {
          skips := skips.(staleHeld := true);
        }
      }
      keeper := Some(first);
    }

    /** The keeper stays, every other flagged group goes. */
    method KeepOne(d: seq<GroupItem>, names: seq<nat>, flagged: seq<nat>, k: nat) returns (dropped: seq<Pos>)
      requires Separate(d) && Named(|d|, names) && Ascending(names) && flagged == FlaggedOf(View(d), names) && k < |d|
      modifies this, Items(d)
      ensures View(d) == DecidedAll(old(View(d)), names, Keep(k))
      ensures dropped == DroppedOf(old(View(d)), flagged, Keep(k))
      ensures skips == NotedFallback(old(View(d)), flagged, k, old(skips))
    {
      var v := View(d);
      WhereDistinct(v, names, IsFlagged);
      var privateDropped := PrivateGroups(v, flagged);
      if privateDropped != [] && IsFallbackGroup(v[k]) {
        Note(privateDropped, FellBack(k), false);
      }
      dropped := DropFlagged(d, flagged, Keep(k), Some(k));
      DropsAreReduction(v, names, Keep(k));
    }

    /** A set with a public group flagged: the first wholly addable one is kept, or an alternative stands in, or
      * the first public one is kept.
      */
    method ReduceToOne(d: seq<GroupItem>, names: seq<nat>, flagged: seq<nat>) returns (dropped: seq<Pos>)
      requires Separate(d) && Named(|d|, names) && Ascending(names) && flagged == FlaggedOf(View(d), names)
      requires Where(View(d), flagged, IsPublicGroup) != []
      modifies this, Items(d)
      ensures View(d) == Reduced(old(View(d)), names)
      ensures skips == Reported(old(View(d)), names, old(skips))
      ensures dropped == DroppedOf(old(View(d)), flagged, Decide(old(View(d)), names))
    {
      var v := View(d);
      var publicFlagged := Where(v, flagged, IsPublicGroup);
      var keeper := First(v, publicFlagged, FlaggedAllAddable);
      if keeper.None? {
        keeper, dropped := KeepOrGrab(d, names, flagged, publicFlagged[0]);
        if keeper.None? {
          return;
        }
      }
      KeeperIsKept(v, names, keeper.value);
      dropped := KeepOne(d, names, flagged, keeper.value);
    }

    /** One same-files set: reduce, then rescue. */
    method ReduceSet(d: seq<GroupItem>, names: seq<nat>)
      requires Separate(d) && Named(|d|, names) && Ascending(names)
      modifies this, Items(d)
      ensures View(d) == SetReduced(old(View(d)), names)
      ensures skips == TurnReported(old(View(d)), names, old(skips))
    {
      var v := View(d);
      var flagged := FlaggedOf(v, names);
      if flagged == [] {
        return;
      }
      var dropped: seq<Pos>;
      if Where(v, flagged, IsPublicGroup) == [] {
        dropped := ReducePrivateOnly(d, names, flagged);
      } else {
        dropped := ReduceToOne(d, names, flagged);
      }
      DroppedAreIn(v, names);
      RescueDroppedCoverage(d, names, dropped);
    }

    /** The sets in turn. */
    method ReduceEach(d: seq<GroupItem>, sets: seq<seq<nat>>)
      requires Separate(d) && AllSound(|d|, sets) && AllAscending(sets)
      modifies this, Items(d)
      ensures View(d) == SetsReduced(old(View(d)), sets, |sets|)
      ensures skips == SetsReported(old(View(d)), sets, |sets|, old(skips))
    {
      ghost var v, told := View(d), skips;
      for s := 0 to |sets|
        invariant View(d) == SetsReduced(v, sets, s)
        invariant skips == SetsReported(v, sets, s, told)
      {
        assert Ascending(sets[s]) && Named(|d|, sets[s]);
        ReduceSet(d, sets[s]);
      }
    }

    /** The same-files phase. */
    method ReduceSets(d: seq<GroupItem>)
      requires Separate(d)
      modifies this, Items(d)
      ensures View(d) == SameFilesPhase(old(View(d)))
      ensures
        var sets := SetsOf(old(View(d)), |d|);
        skips == SetsReported(old(View(d)), sets, |sets|, old(skips))
    {
      var v := View(d);
      var sets := SameFilesSets(v);
      SetsAreAscending(v);
      ReduceEach(d, sets);
    }

    /** Each group's de-duplication. */
    method DedupeAll(d: seq<GroupItem>)
      requires Separate(d)
      modifies Items(d)
      ensures View(d) == Deduped(old(View(d)))
    {
      ghost var v := View(d);
      for g := 0 to |d|
        invariant View(d) == DedupedUpTo(v, g)
      {
        DedupeGroup(d, g);
      }
    }

    method DedupeGroup(d: seq<GroupItem>, rg: nat)
      requires Separate(d) && rg < |d|
      modifies Items(d)
      ensures View(d) == old(View(d))[rg := old(View(d))[rg].(urls := DedupedUrls(old(View(d))[rg].urls))]
    {
      ghost var was := View(d);
      assert d[rg] in d && forall u :: u in d[rg].urls ==> u in Items(d);
      DedupeUrls(d[rg].urls);
      forall h | 0 <= h < |d| && h != rg ensures d[h].View() == was[h] {
        forall i | 0 <= i < |d[h].urls| ensures d[h].urls[i].View() == was[h].urls[i] {
          assert d[h].urls[i] in d[h].urls && d[h].urls[i] !in d[rg].urls;
        }
      }
      OneGroupChanged(d, was, rg, was[rg].(urls := DedupedUrls(was[rg].urls)));
    }

    /** `reduce_overlapping_downloads`, with the skips it starts afresh and returns. */
    method ReduceOverlappingDownloads(d: seq<GroupItem>) returns (reported: Skips)
      requires Separate(d)
      modifies this, Items(d)
      ensures View(d) == ReducedListing(old(View(d)), interactive)
      ensures reported == CallReported(old(View(d)), interactive)
    {
      skips := NO_SKIPS;
      if interactive {
        return skips;
      }
      ReduceSets(d);
      DedupeAll(d);
      reported := skips;
    }
  }

  /** The first `n` groups de-duplicated. */
  function DedupedUpTo(d: Listing, n: nat): Listing {
    seq(|d|, g requires 0 <= g < |d| => if g < n then d[g].(urls := DedupedUrls(d[g].urls)) else d[g])
  }

  predicate Ascending(names: seq<nat>) {
    forall i, j :: 0 <= i < j < |names| ==> names[i] < names[j]
  }

  lemma {:induction false} WhereDistinct(d: Listing, names: seq<nat>, test: Group -> bool)
    requires Named(|d|, names) && Ascending(names)
    ensures Ascending(Where(d, names, test))
  {
    if names != [] {
      var n := |names| - 1;
      WhereDistinct(d, names[..n], test);
      var before := Where(d, names[..n], test);
      WhereHolds(d, names[..n], test);
      forall i | 0 <= i < |before| ensures before[i] < names[n] {
        assert before[i] in before;
        var k :| 0 <= k < n && names[..n][k] == before[i];
      }
    }
  }

  /** Unflagging the flagged groups of the set is what a decision makes of it, when it promotes none. */
  lemma DropsAreReduction(d: Listing, names: seq<nat>, dec: Decision)
    requires Named(|d|, names) && !dec.Promote?
    ensures GroupsDropped(d, FlaggedOf(d, names), dec) == DecidedAll(d, names, dec)
  {
    WhereHolds(d, names, IsFlagged);
  }

  /** Promoting first and unflagging after is the promotion's reduction. */
  lemma PromotionIsReduction(d: Listing, names: seq<nat>, g: nat)
    requires Named(|d|, names) && g in names && Promotable(d[g])
    ensures
      var promoted := d[g := PromotedGroup(d[g])];
      && GroupsDropped(promoted, FlaggedOf(d, names), Promote(g)) == DecidedAll(d, names, Promote(g))
      && DroppedOf(promoted, FlaggedOf(d, names), Promote(g)) == DroppedOf(d, FlaggedOf(d, names), Promote(g))
  {
    var promoted, flagged := d[g := PromotedGroup(d[g])], FlaggedOf(d, names);
    WhereHolds(d, names, IsFlagged);
    SameDrops(d, promoted, flagged, Promote(g));
    var dropped := GroupsDropped(promoted, flagged, Promote(g));
    forall h: nat | h < |d| ensures dropped[h] == DecidedAll(d, names, Promote(g))[h] {
      DecidedByPromotion(d, names, g, h);
    }
  }

  lemma DecidedByPromotion(d: Listing, names: seq<nat>, g: nat, h: nat)
    requires Named(|d|, names) && g in names && Promotable(d[g]) && h < |d|
    ensures Decided(d, names, Promote(g), h) ==
            if h == g then PromotedGroup(d[g])
            else if h in FlaggedOf(d, names) then UnflaggedGroup(d[h]) else d[h]
  {
    WhereHolds(d, names, IsFlagged);
  }

  lemma {:induction false} SameDrops(d: Listing, e: Listing, flagged: seq<nat>, dec: Decision)
    requires |d| == |e| && Named(|d|, flagged) && forall g :: g in flagged ==> d[g] == e[g]
    ensures DroppedOf(d, flagged, dec) == DroppedOf(e, flagged, dec)
  {
    if flagged != [] {
      SameDrops(d, e, flagged[..|flagged| - 1], dec);
    }
  }

  lemma KeeperIsKept(d: Listing, names: seq<nat>, k: nat)
    requires Named(|d|, names)
    requires
      var publicFlagged := Where(d, FlaggedOf(d, names), IsPublicGroup);
      && publicFlagged != []
      && (var addable := First(d, publicFlagged, FlaggedAllAddable);
          if addable.Some? then k == addable.value
          else k == publicFlagged[0] && (UpgradePending(d, names) ==> Promoted(d, names).None?))
    ensures Decide(d, names) == Keep(k) && k < |d|
    ensures FlaggedAllAddable(d[k]) <==>
            First(d, Where(d, FlaggedOf(d, names), IsPublicGroup), FlaggedAllAddable).Some?
  {
    var publicFlagged := Where(d, FlaggedOf(d, names), IsPublicGroup);
    var addable := Where(d, publicFlagged, FlaggedAllAddable);
    WhereHolds(d, publicFlagged, FlaggedAllAddable);
    assert publicFlagged[0] in publicFlagged;
    if addable != [] {
      assert addable[0] in addable;
    }
  }

  lemma {:induction false} FirstSetFound(d: Listing, sets: seq<seq<nat>>, key: CoverKey, s: nat)
    requires AllSound(|d|, sets) && s <= |sets|
    requires forall t :: 0 <= t < s ==> KeyOf(d, sets[t][0]) != key
    requires s < |sets| ==> KeyOf(d, sets[s][0]) == key
    ensures FindSet(d, sets, key) == if s < |sets| then Some(s) else None
  {
    if sets != [] {
      var n := |sets| - 1;
      if s < |sets| {
        FirstSetFound(d, sets[..n], key, if s < n then s else n);
      }
    }
  }
}
