/** How an episode's file is judged, told from the record's claims, the series' grabs and the file itself: whom the
  * evidence trusts, whose evidence it is, and what the file is to the torrent.
  */
module JudgeLaws {
  import opened Wrappers
  import opened NameFolding
  import opened PendingRecords
  import opened PendingClaims
  import opened TrustPolicies
  import opened EpisodeStates

  // Whom the evidence trusts.

  /** A name among the groups folds to `g`. */
  predicate FoldsTo(norm: string -> string, groups: seq<string>, g: string) {
    g != "" && exists i :: 0 <= i < |groups| && groups[i] != "" && norm(groups[i]) == g
  }

  /** A pick of the entry's, or another grab of the series that is not stale. */
  predicate TrustedByName(norm: string -> string, guards: Guards, siblings: seq<OwnGroup>, g: string) {
    || FoldsTo(norm, guards.entryGroups, g)
    || (&& !FoldsTo(norm, guards.staleGroups, g)
        && exists i :: 0 <= i < |siblings| && siblings[i].releaseGroup != "" && norm(siblings[i].releaseGroup) == g)
  }

  /** The torrent's own group. */
  predicate IsOwn(norm: string -> string, votes: GroupVotes, g: string) {
    g != "" && votes.own.releaseGroup != "" && norm(votes.own.releaseGroup) == g
  }

  /** A size the torrent lists, or another grab of its own group does. */
  predicate OwnListed(norm: string -> string, votes: GroupVotes, size: int) {
    || size in votes.own.sizes
    || (&& votes.own.releaseGroup != ""
        && exists i :: 0 <= i < |votes.siblings| && votes.siblings[i].releaseGroup != ""
             && norm(votes.siblings[i].releaseGroup) == norm(votes.own.releaseGroup) && size in votes.siblings[i].sizes)
  }

  ghost predicate OwnListsSome(norm: string -> string, votes: GroupVotes) {
    exists size :: OwnListed(norm, votes, size)
  }

  /** A file of the group at the size is trusted: the own group at its listed sizes, if it lists any, others by name. */
  ghost predicate Trusts(norm: string -> string, guards: Guards, votes: GroupVotes, g: string, size: Option<int>) {
    if IsOwn(norm, votes, g) then
      OwnListsSome(norm, votes) ==> size.Some? && OwnListed(norm, votes, size.value)
    else TrustedByName(norm, guards, votes.siblings, g)
  }

  lemma NamedIs(norm: string -> string, groups: seq<string>, g: string)
    ensures g in Named(norm, groups) <==> FoldsTo(norm, groups, g)
  {
    if FoldsTo(norm, groups, g) {
      var i :| 0 <= i < |groups| && groups[i] != "" && norm(groups[i]) == g;
      assert groups[i] in groups;
    }
  }

  lemma SizesAre(norm: string -> string, votes: GroupVotes, size: int)
    ensures size in OwnSizes(norm, votes) <==> OwnListed(norm, votes, size)
  {
    if OwnListed(norm, votes, size) && size !in votes.own.sizes {
      var i :| 0 <= i < |votes.siblings| && votes.siblings[i].releaseGroup != ""
        && norm(votes.siblings[i].releaseGroup) == norm(votes.own.releaseGroup) && size in votes.siblings[i].sizes;
      assert votes.siblings[i] in votes.siblings && OfOwnGroup(norm, votes, votes.siblings[i]);
    }
  }

  lemma ByNameIs(norm: string -> string, guards: Guards, siblings: seq<OwnGroup>, g: string)
    ensures g in ByName(norm, guards, siblings) <==> TrustedByName(norm, guards, siblings, g)
    ensures g in ByName(norm, guards, siblings) ==> ByName(norm, guards, siblings)[g] == None
  {
    NamedIs(norm, guards.entryGroups, g);
    NamedIs(norm, guards.staleGroups, g);
    if i :| 0 <= i < |siblings| && siblings[i].releaseGroup != "" && norm(siblings[i].releaseGroup) == g {
      assert siblings[i] in siblings;
    }
  }

  /** The policy trusts exactly those. */
  lemma PolicyIs(norm: string -> string, guards: Guards, votes: GroupVotes, g: string, size: Option<int>)
    ensures
      var trusted := Trusted(norm, guards, votes);
      g in trusted && (trusted[g].Some? ==> size.Some? && size.value in trusted[g].value) <==>
        Trusts(norm, guards, votes, g, size)
  {
    ByNameIs(norm, guards, votes.siblings, g);
    forall s ensures s in OwnSizes(norm, votes) <==> OwnListed(norm, votes, s) {
      SizesAre(norm, votes, s);
    }
    if !OwnListsSome(norm, votes) {
      forall s ensures s !in OwnSizes(norm, votes) {
        SizesAre(norm, votes, s);
        assert !OwnListed(norm, votes, s);
      }
    }
  }

  // What the file is to the torrent.

  /** The last the grab recorded of the episode is this size. */
  predicate LastRecorded(owned: seq<(int, int)>, ep: int, size: int) {
    exists k :: 0 <= k < |owned| && owned[k] == (ep, size) && forall j :: k < j < |owned| ==> owned[j].0 != ep
  }

  lemma {:induction false} OwnedIs(owned: seq<(int, int)>, ep: int, size: int)
    ensures ep in OwnedSizes(owned) && OwnedSizes(owned)[ep] == size <==> LastRecorded(owned, ep, size)
  {
    if owned != [] {
      var n := |owned| - 1;
      OwnedIs(owned[..n], ep, size);
      if owned[n].0 == ep {
        assert owned[n].1 == size ==> LastRecorded(owned, ep, size);
      } else {
        if LastRecorded(owned[..n], ep, size) {
          var k :| 0 <= k < n && owned[..n][k] == (ep, size) && forall j :: k < j < n ==> owned[..n][j].0 != ep;
          assert forall j :: k < j < n ==> owned[..n][j] == owned[j];
          assert owned[k] == (ep, size);
        }
        if LastRecorded(owned, ep, size) {
          var k :| 0 <= k < |owned| && owned[k] == (ep, size) && forall j :: k < j < |owned| ==> owned[j].0 != ep;
          assert owned[..n][k] == (ep, size);
        }
      }
    }
  }

  /** The file is one of the torrent's by size, and not the one meant here. */
  predicate AnotherOfOurs(own: OwnGroup, size: Option<int>, intended: Option<int>) {
    size.Some? && size.value in own.sizes && intended.Some? && intended.value != size.value
  }

  /** The whole judgment. An episode without a file is absent. An untagged file is known only at the size the grab
    * recorded; a tagged one only if the evidence trusts its group at its size. A known file is recommended unless it is
    * another of the torrent's own. It is a copy of our own exactly when it has one of the torrent's sizes.
    */
  lemma JudgedAs(norm: string -> string, episodes: EpisodeIndex, guards: Guards, votes: GroupVotes, ep: int,
                 intended: Option<int>)
    ensures
      var j := Judge(norm, Guarded(norm, episodes, guards, votes), ep, intended);
      if ep !in episodes || episodes[ep].fileId == 0 then j.status == Absent && !j.ownCopy
      else
        var file := episodes[ep].file;
        var size := if file.None? then None else file.value.size;
        var untagged := file.None? || file.value.group == None || file.value.group == Some("");
        var known :=
          if untagged then size.Some? && LastRecorded(guards.ownedEpisodes, ep, size.value)
          else Trusts(norm, guards, votes, norm(file.value.group.value), size);
        && (j.ownCopy <==> file.Some? && size.Some? && size.value in votes.own.sizes)
        && (j.status == Recommended <==> known && !AnotherOfOurs(votes.own, size, intended))
        && (j.status == Misplaced <==> known && AnotherOfOurs(votes.own, size, intended))
        && (j.status == Unidentified <==> !known && untagged)
        && (j.status == Foreign <==> !known && !untagged)
  {
    if ep in episodes && episodes[ep].fileId != 0 {
      var file := episodes[ep].file;
      var size := if file.None? then None else file.value.size;
      if size.Some? {
        OwnedIs(guards.ownedEpisodes, ep, size.value);
      }
      if file.Some? && file.value.group.Some? {
        PolicyIs(norm, guards, votes, norm(file.value.group.value), size);
      }
    }
  }

  // Whose evidence it is.

  /** Claim `i` is the first whose window names the episode. */
  predicate FirstNames(claims: seq<EntryClaim>, i: nat, ep: int) {
    i < |claims| && ep in claims[i].orderedEpisodeIds && forall j :: 0 <= j < i ==> ep !in claims[j].orderedEpisodeIds
  }

  /** Claim `i` is the first whose series lists the episode. */
  predicate FirstLists(claims: seq<EntryClaim>, lists: map<int, EpisodeIndex>, i: nat, ep: int) {
    && i < |claims| && Lists(lists, claims[i].seriesId, ep)
    && forall j :: 0 <= j < i ==> !Lists(lists, claims[j].seriesId, ep)
  }

  predicate Lists(lists: map<int, EpisodeIndex>, series: int, ep: int) {
    series in lists && ep in lists[series]
  }

  /** Claim `u` is the series' one claim without a window. */
  predicate OnlyUnscoped(claims: seq<EntryClaim>, u: nat, series: int) {
    && u < |claims| && claims[u].seriesId == series && claims[u].orderedEpisodeIds == []
    && forall j :: 0 <= j < |claims| && claims[j].seriesId == series && claims[j].orderedEpisodeIds == [] ==> j == u
  }

  /** Claim `l` is the latest of its entry. */
  predicate IsLatest(claims: seq<EntryClaim>, l: nat, alId: int) {
    l < |claims| && claims[l].alId == alId && forall j :: l < j < |claims| ==> claims[j].alId != alId
  }

  lemma {:induction false} NamingIs(claims: seq<EntryClaim>, ep: int)
    ensures FirstNaming(claims, ep).None? <==> forall i :: 0 <= i < |claims| ==> ep !in claims[i].orderedEpisodeIds
    ensures forall i: nat :: FirstNames(claims, i, ep) ==> FirstNaming(claims, ep) == Some(claims[i])
  {
    if claims != [] {
      NamingIs(claims[1..], ep);
      assert forall j :: 0 <= j < |claims| - 1 ==> claims[1..][j] == claims[j + 1];
      if ep !in claims[0].orderedEpisodeIds {
        forall i: nat | FirstNames(claims, i, ep) ensures FirstNaming(claims, ep) == Some(claims[i]) {
          assert i > 0 && claims[1..][i - 1] == claims[i];
          assert FirstNames(claims[1..], i - 1, ep);
        }
      }
    }
  }

  lemma {:induction false} LatestClaimIs(claims: seq<EntryClaim>, l: nat, alId: int)
    requires IsLatest(claims, l, alId)
    ensures LatestOf(claims, alId) == Some(claims[l])
  {
    var n := |claims| - 1;
    if l < n {
      assert claims[..n][l] == claims[l];
      LatestClaimIs(claims[..n], l, alId);
    }
  }

  lemma {:induction false} SeriesAreClaimed(claims: seq<EntryClaim>, series: int)
    ensures series in SeriesIds(claims) <==> exists i :: 0 <= i < |claims| && claims[i].seriesId == series
  {
    if claims != [] {
      var n := |claims| - 1;
      SeriesAreClaimed(claims[..n], series);
      assert claims[n].seriesId == series ==> exists i :: 0 <= i < |claims| && claims[i].seriesId == series;
      if i :| 0 <= i < n && claims[..n][i].seriesId == series {
        assert claims[i].seriesId == series;
      }
      if i :| 0 <= i < |claims| && claims[i].seriesId == series {
        assert i < n ==> claims[..n][i].seriesId == series;
      }
    }
  }

  lemma {:induction false} HoldingOfMore(series: seq<int>, more: int, lists: map<int, EpisodeIndex>, ep: int)
    ensures FirstHolding(series + [more], lists, ep) ==
            if FirstHolding(series, lists, ep).Some? then FirstHolding(series, lists, ep)
            else if Lists(lists, more, ep) then Some(more) else None
  {
    if series == [] {
      assert series + [more] == [more] && [more][1..] == [];
    } else {
      assert (series + [more])[1..] == series[1..] + [more];
      HoldingOfMore(series[1..], more, lists, ep);
    }
  }

  lemma {:induction false} HoldingIsListed(series: seq<int>, lists: map<int, EpisodeIndex>, ep: int)
    ensures FirstHolding(series, lists, ep).None? <==> forall s :: s in series ==> !Lists(lists, s, ep)
    ensures FirstHolding(series, lists, ep).Some? ==>
      FirstHolding(series, lists, ep).value in series && Lists(lists, FirstHolding(series, lists, ep).value, ep)
  {
    if series != [] {
      HoldingIsListed(series[1..], lists, ep);
      forall s ensures s in series <==> s == series[0] || s in series[1..] {
      }
      assert FirstHolding(series, lists, ep) ==
             if Lists(lists, series[0], ep) then Some(series[0]) else FirstHolding(series[1..], lists, ep);
    }
  }

  /** The series is that of the first claim whose series lists the episode. */
  lemma {:induction false} HoldingIs(claims: seq<EntryClaim>, lists: map<int, EpisodeIndex>, ep: int)
    ensures FirstHolding(SeriesIds(claims), lists, ep).None? <==>
      forall i :: 0 <= i < |claims| ==> !Lists(lists, claims[i].seriesId, ep)
    ensures forall i: nat :: FirstLists(claims, lists, i, ep) ==>
      FirstHolding(SeriesIds(claims), lists, ep) == Some(claims[i].seriesId)
  {
    if claims != [] {
      var n := |claims| - 1;
      var rest, last := claims[..n], claims[n].seriesId;
      HoldingIs(rest, lists, ep);
      HoldingOfMore(SeriesIds(rest), last, lists, ep);
      HoldingIsListed(SeriesIds(rest), lists, ep);
      assert forall i :: 0 <= i < n ==> rest[i] == claims[i];
      forall i: nat | FirstLists(claims, lists, i, ep)
        ensures FirstHolding(SeriesIds(claims), lists, ep) == Some(claims[i].seriesId)
      {
        if i < n {
          assert FirstLists(rest, lists, i, ep);
        }
      }
    }
  }

  lemma {:induction false} UnscopedIs(claims: seq<EntryClaim>, series: int)
    ensures Unscoped(claims, series) == [] <==>
      forall j :: 0 <= j < |claims| ==> !(claims[j].seriesId == series && claims[j].orderedEpisodeIds == [])
    ensures forall u: nat :: OnlyUnscoped(claims, u, series) ==> Unscoped(claims, series) == [claims[u]]
    ensures |Unscoped(claims, series)| == 1 ==> exists u: nat :: OnlyUnscoped(claims, u, series)
  {
    if claims != [] {
      var n := |claims| - 1;
      var rest := claims[..n];
      UnscopedIs(rest, series);
      assert forall j :: 0 <= j < n ==> rest[j] == claims[j];
      if claims[n].seriesId == series && claims[n].orderedEpisodeIds == [] {
        forall u: nat | OnlyUnscoped(claims, u, series) ensures Unscoped(claims, series) == [claims[u]] {
          assert u == n;
        }
        if |Unscoped(claims, series)| == 1 {
          assert Unscoped(rest, series) == [];
          assert OnlyUnscoped(claims, n, series);
        }
      } else {
        forall u: nat | OnlyUnscoped(claims, u, series) ensures Unscoped(claims, series) == [claims[u]] {
          assert OnlyUnscoped(rest, u, series);
        }
        if |Unscoped(claims, series)| == 1 {
          var u: nat :| OnlyUnscoped(rest, u, series);
          assert OnlyUnscoped(claims, u, series);
        }
      }
    }
  }

  /** An episode a window names is judged by that claim's entry, at its latest: on its series, by its own evidence. */
  lemma NamedByItsClaim(claims: seq<EntryClaim>, lists: map<int, EpisodeIndex>, i: nat, l: nat, ep: int)
    requires FirstNames(claims, i, ep) && IsLatest(claims, l, claims[i].alId)
    ensures Judging(claims, lists, ep) == Some((claims[l].seriesId, claims[l].guards))
    ensures RouteOf(claims, lists, ep) == Route(Some(claims[i]), Some(claims[i].seriesId))
  {
    NamingIs(claims, ep);
    LatestClaimIs(claims, l, claims[i].alId);
  }

  /** An episode no window names is judged on the first claimed series that lists it: by the evidence of the series' one
    * claim without a window if there is just one.
    */
  lemma UnnamedByItsOneClaim(claims: seq<EntryClaim>, lists: map<int, EpisodeIndex>, i: nat, u: nat, l: nat, ep: int)
    requires (forall j :: 0 <= j < |claims| ==> ep !in claims[j].orderedEpisodeIds) && FirstLists(claims, lists, i, ep)
    requires OnlyUnscoped(claims, u, claims[i].seriesId) && IsLatest(claims, l, claims[u].alId)
    ensures Judging(claims, lists, ep) == Some((claims[l].seriesId, claims[l].guards))
    ensures RouteOf(claims, lists, ep) == Route(Some(claims[u]), Some(claims[i].seriesId))
  {
    NamingIs(claims, ep);
    HoldingIs(claims, lists, ep);
    UnscopedIs(claims, claims[i].seriesId);
    LatestClaimIs(claims, l, claims[u].alId);
  }

  /** And by that of all the series' claims together if there is not. */
  lemma UnnamedByItsSeries(claims: seq<EntryClaim>, lists: map<int, EpisodeIndex>, i: nat, ep: int)
    requires (forall j :: 0 <= j < |claims| ==> ep !in claims[j].orderedEpisodeIds) && FirstLists(claims, lists, i, ep)
    requires !exists u: nat :: OnlyUnscoped(claims, u, claims[i].seriesId)
    ensures Judging(claims, lists, ep) == Some((claims[i].seriesId, GuardsFor(claims, claims[i].seriesId)))
    ensures RouteOf(claims, lists, ep) == Route(None, Some(claims[i].seriesId))
  {
    NamingIs(claims, ep);
    HoldingIs(claims, lists, ep);
    UnscopedIs(claims, claims[i].seriesId);
  }

  /** One that no window names and no claimed series lists is judged by nothing. */
  lemma UnlistedByNothing(claims: seq<EntryClaim>, lists: map<int, EpisodeIndex>, ep: int)
    requires forall j :: 0 <= j < |claims| ==>
      ep !in claims[j].orderedEpisodeIds && !Lists(lists, claims[j].seriesId, ep)
    ensures Judging(claims, lists, ep) == None && RouteOf(claims, lists, ep) == Route(None, None)
  {
    NamingIs(claims, ep);
    HoldingIs(claims, lists, ep);
  }

  /** A series' evidence together: the groups any of its claims has, and what they recorded, claim after claim. */
  lemma {:induction false} MergedEvidence(claims: seq<EntryClaim>, series: int, g: string, ep: int)
    ensures
      var merged := GuardsFor(claims, series);
      && (g in merged.entryGroups <==>
            exists i :: 0 <= i < |claims| && claims[i].seriesId == series && g in claims[i].guards.entryGroups)
      && (g in merged.staleGroups <==>
            exists i :: 0 <= i < |claims| && claims[i].seriesId == series && g in claims[i].guards.staleGroups)
      && merged.ownedEpisodes == RecordedOn(claims, series)
  {
    if claims != [] {
      var n := |claims| - 1;
      var before, last := GuardsFor(claims[..n], series), claims[n];
      MergedEvidence(claims[..n], series, g, ep);
      assert claims == claims[..n] + [last];
      if last.seriesId == series {
        Together(before.entryGroups, last.guards.entryGroups, g);
        Together(before.staleGroups, last.guards.staleGroups, g);
      }
      assert forall i :: 0 <= i < n ==> claims[..n][i] == claims[i];
    }
  }

  /** What the series' claims recorded, claim after claim. */
  function RecordedOn(claims: seq<EntryClaim>, series: int): seq<(int, int)> {
    if claims == [] then []
    else
      RecordedOn(claims[..|claims| - 1], series)
      + if claims[|claims| - 1].seriesId == series then claims[|claims| - 1].guards.ownedEpisodes else []
  }

  lemma Together(a: seq<string>, b: seq<string>, g: string)
    ensures g in InOrder(n => n, a + b) <==> g in a || g in b
  {
    var same: string -> string := n => n;
    forall n: string ensures Settles(same, n) {
    }
    InOrderIs(same, a + b);
    assert InOrder(n => n, a + b) == InOrder(same, a + b);
    assert g in InOrder(same, a + b) <==> g in Members(InOrder(same, a + b));
    if g in a + b {
      var i :| 0 <= i < |a + b| && (a + b)[i] == g;
    }
  }
}
