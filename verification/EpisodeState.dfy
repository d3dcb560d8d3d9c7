/** How a target episode's current file relates to a torrent's own, and which claim's evidence judges it
  * (episode_state.py).
  */
module EpisodeStates {
  import opened Wrappers
  import opened Unambiguous
  import opened NameFolding
  import opened PendingRecords
  import opened PendingClaims
  import opened TrustPolicies

  datatype EpFile = EpFile(group: Option<string>, size: Option<int>)

  /** An episode with a file id and no file record reads a file of nothing known. */
  datatype Episode = Episode(fileId: int, file: Option<EpFile>)

  type EpisodeIndex = map<int, Episode>

  datatype Status = Absent | Recommended | Foreign | Unidentified | Misplaced

  datatype Judgment = Judgment(status: Status, ownCopy: bool)

  const NO_FILE := Judgment(Absent, false)

  datatype Snapshot = Snapshot(episodes: EpisodeIndex, trusted: TrustPolicy, own: OwnGroup, ownedSizes: map<int, int>)

  /** `dict(owned)`: the last size of an id. */
  function OwnedSizes(owned: seq<(int, int)>): map<int, int> {
    if owned == [] then map[] else OwnedSizes(owned[..|owned| - 1])[owned[|owned| - 1].0 := owned[|owned| - 1].1]
  }

  function Guarded(norm: string -> string, episodes: EpisodeIndex, guards: Guards, votes: GroupVotes): Snapshot {
    Snapshot(episodes, Trusted(norm, guards, votes), votes.own, OwnedSizes(guards.ownedEpisodes))
  }

  predicate OwnSize(s: Snapshot, size: Option<int>) {
    size.Some? && size.value in s.own.sizes
  }

  /** One of the torrent's own sizes, on a target meant for another of them. */
  predicate IsMisplaced(s: Snapshot, size: Option<int>, intended: Option<int>) {
    OwnSize(s, size) && intended.Some? && size != intended
  }

  /** `_status`. */
  function StatusAt(norm: string -> string, s: Snapshot, ep: int, file: Option<EpFile>, intended: Option<int>): Status {
    var group := if file.Some? then file.value.group.GetOr("") else "";
    var size := if file.Some? then file.value.size else None;
    if group == "" then
      if size.Some? && ep in s.ownedSizes && size.value == s.ownedSizes[ep] then
        if IsMisplaced(s, size, intended) then Misplaced else Recommended
      else Unidentified
    else if norm(group) !in s.trusted then Foreign
    else
      var verify := s.trusted[norm(group)];
      if verify.Some? && (size.None? || size.value !in verify.value) then Foreign
      else if IsMisplaced(s, size, intended) then Misplaced
      else Recommended
  }

  /** `judge`. */
  function Judge(norm: string -> string, s: Snapshot, ep: int, intended: Option<int>): Judgment {
    if ep !in s.episodes || s.episodes[ep].fileId == 0 then NO_FILE
    else
      var file := s.episodes[ep].file;
      Judgment(StatusAt(norm, s, ep, file, intended), file.Some? && OwnSize(s, file.value.size))
  }

  // Routing an episode to its judge.

  function SeriesIds(claims: seq<EntryClaim>): seq<int> {
    if claims == [] then []
    else
      var before, last := SeriesIds(claims[..|claims| - 1]), claims[|claims| - 1].seriesId;
      if last in before then before else before + [last]
  }

  /** `guards_for`: the evidence of a series' claims as one. */
  function GuardsFor(claims: seq<EntryClaim>, series: int): Guards {
    if claims == [] then NO_GUARDS
    else
      var before, last := GuardsFor(claims[..|claims| - 1], series), claims[|claims| - 1];
      if last.seriesId != series then before
      else
        Guards(InOrder(g => g, before.entryGroups + last.guards.entryGroups),
               InOrder(g => g, before.staleGroups + last.guards.staleGroups),
               before.ownedEpisodes + last.guards.ownedEpisodes)
  }

  /** A series' unscoped claims. */
  function Unscoped(claims: seq<EntryClaim>, series: int): seq<EntryClaim> {
    if claims == [] then []
    else
      Unscoped(claims[..|claims| - 1], series)
      + (if claims[|claims| - 1].seriesId == series && claims[|claims| - 1].orderedEpisodeIds == [] then
           [claims[|claims| - 1]]
         else [])
  }

  function FirstNaming(claims: seq<EntryClaim>, ep: int): Option<EntryClaim> {
    if claims == [] then None
    else if ep in claims[0].orderedEpisodeIds then Some(claims[0])
    else FirstNaming(claims[1..], ep)
  }

  /** The first of the series whose index holds the episode. */
  function FirstHolding(series: seq<int>, lists: map<int, EpisodeIndex>, ep: int): Option<int> {
    if series == [] then None
    else if series[0] in lists && ep in lists[series[0]] then Some(series[0])
    else FirstHolding(series[1..], lists, ep)
  }

  datatype Route = Route(claim: Option<EntryClaim>, series: Option<int>)

  /** `route`. */
  function RouteOf(claims: seq<EntryClaim>, lists: map<int, EpisodeIndex>, ep: int): Route {
    var naming := FirstNaming(claims, ep);
    if naming.Some? then Route(naming, Some(naming.value.seriesId))
    else
      var series := FirstHolding(SeriesIds(claims), lists, ep);
      if series.None? then Route(None, None)
      else
        var unscoped := Unscoped(claims, series.value);
        Route(if |unscoped| == 1 then Some(unscoped[0]) else None, series)
  }

  /** Under which series' index and whose evidence an episode is judged. A claim's snapshot is kept by AniList id, the
    * latest of two under one id.
    */
  function Judging(claims: seq<EntryClaim>, lists: map<int, EpisodeIndex>, ep: int): Option<(int, Guards)> {
    var route := RouteOf(claims, lists, ep);
    var own := if route.claim.Some? then LatestOf(claims, route.claim.value.alId) else None;
    if own.Some? then Some((own.value.seriesId, own.value.guards))
    else if route.series.None? then None
    else Some((route.series.value, GuardsFor(claims, route.series.value)))
  }

  /** What a poll judges a record's episodes by, besides the episode lists: its torrent's siblings on each series. */
  datatype Poll = Poll(norm: string -> string, record: PendingImport, siblings: int -> seq<OwnGroup>)

  function OwnGroupOf(r: PendingImport): OwnGroup {
    OwnGroup(r.releaseGroup, r.releaseSizes)
  }

  function ListOf(lists: map<int, EpisodeIndex>, series: int): EpisodeIndex {
    if series in lists then lists[series] else map[]
  }

  /** `snapshot_for`. */
  function SnapshotFor(p: Poll, lists: map<int, EpisodeIndex>, ep: int): Option<Snapshot> {
    var judging := Judging(p.record.claims, lists, ep);
    if judging.None? then None
    else
      var (series, guards) := judging.value;
      Some(Guarded(p.norm, ListOf(lists, series), guards, GroupVotes(OwnGroupOf(p.record), p.siblings(series))))
  }

  function JudgeEpisode(p: Poll, lists: map<int, EpisodeIndex>, ep: int, intended: Option<int>): Judgment {
    var snapshot := SnapshotFor(p, lists, ep);
    if snapshot.None? then NO_FILE else Judge(p.norm, snapshot.value, ep, intended)
  }

  // A file map's targets.

  function IdPairs(ids: seq<int>, size: int): seq<(int, int)> {
    seq(|ids|, i requires 0 <= i < |ids| => (ids[i], size))
  }

  /** Each mapped id with its file's listed size. */
  function SizePairs(m: FileMap, listed: map<string, int>): seq<(int, int)> {
    if m == [] then []
    else (if m[0].0 in listed then IdPairs(m[0].1, listed[m[0].0]) else []) + SizePairs(m[1..], listed)
  }

  /** `sizes_by_episode`. */
  function IntendedSize(m: FileMap, listed: map<string, int>, ep: int): Option<int> {
    var sizes := Kept(SizePairs(m, listed));
    if ep in sizes then Some(sizes[ep]) else None
  }

  predicate MapsTo(m: FileMap, ep: int) {
    exists i :: 0 <= i < |m| && ep in m[i].1
  }

  /** A target as the plan sees it: its file's judgment against the size the map puts on it. */
  function TargetOf(p: Poll, lists: map<int, EpisodeIndex>, m: FileMap, ep: int): Judgment {
    JudgeEpisode(p, lists, ep, IntendedSize(m, p.record.sizesByName, ep))
  }

  predicate Needs(p: Poll, lists: map<int, EpisodeIndex>, m: FileMap, ep: int) {
    TargetOf(p, lists, m, ep).status != Recommended
  }

  // What the judgments mean.

  /** An episode counts as done exactly when it holds a file that is tagged with a group the evidence trusts (the own
    * group at its sizes, a pick or a fresh sibling by name) or is the untagged file recorded at the grab, and that is
    * not another of this torrent's files.
    */
  lemma RecommendedIff(p: Poll, episodes: EpisodeIndex, guards: Guards, votes: GroupVotes, ep: int,
                       intended: Option<int>)
    ensures
      var s := Guarded(p.norm, episodes, guards, votes);
      var own := NormalizeRg(p.norm, votes.own.releaseGroup);
      Judge(p.norm, s, ep, intended).status == Recommended <==>
        && ep in episodes && episodes[ep].fileId != 0 && episodes[ep].file.Some?
        && var file := episodes[ep].file.value;
        && !(file.size.Some? && file.size.value in votes.own.sizes && intended.Some? && file.size != intended)
        && if file.group.GetOr("") == "" then
             file.size.Some? && ep in OwnedSizes(guards.ownedEpisodes)
               && file.size.value == OwnedSizes(guards.ownedEpisodes)[ep]
           else
             var g := p.norm(file.group.value);
             if own == Some(g) && g != "" then
               OwnSizes(p.norm, votes) == {} || (file.size.Some? && file.size.value in OwnSizes(p.norm, votes))
             else g in Named(p.norm, guards.entryGroups) || g in FreshSiblings(p.norm, guards, votes.siblings)
  {
  }

  // An episode of one entry's window is judged by that entry's evidence alone.

  function WithGuards(claims: seq<EntryClaim>, j: nat, guards: Guards): (with: seq<EntryClaim>)
    requires j < |claims|
    ensures |with| == |claims| && with[j].guards == guards
  {
    claims[j := claims[j].(guards := guards)]
  }

  lemma {:induction false} NamingIgnoresGuards(claims: seq<EntryClaim>, j: nat, guards: Guards, ep: int)
    requires j < |claims|
    ensures FirstNaming(claims, ep).Some? && FirstNaming(claims, ep).value.alId != claims[j].alId ==>
      FirstNaming(WithGuards(claims, j, guards), ep) == FirstNaming(claims, ep)
  {
    if j > 0 && ep !in claims[0].orderedEpisodeIds {
      NamingIgnoresGuards(claims[1..], j - 1, guards, ep);
      assert WithGuards(claims, j, guards)[1..] == WithGuards(claims[1..], j - 1, guards);
    } else if j == 0 {
      assert WithGuards(claims, j, guards)[1..] == claims[1..];
    }
  }

  lemma {:induction false} LatestIgnoresGuards(claims: seq<EntryClaim>, j: nat, guards: Guards, alId: int)
    requires j < |claims| && claims[j].alId != alId
    ensures LatestOf(WithGuards(claims, j, guards), alId) == LatestOf(claims, alId)
  {
    var n := |claims| - 1;
    if j < n {
      LatestIgnoresGuards(claims[..n], j, guards, alId);
      assert WithGuards(claims, j, guards)[..n] == WithGuards(claims[..n], j, guards);
    } else {
      assert WithGuards(claims, j, guards)[..n] == claims[..n];
    }
  }

  lemma {:induction false} NamingIsAClaim(claims: seq<EntryClaim>, ep: int)
    ensures FirstNaming(claims, ep).Some? ==> FirstNaming(claims, ep).value in claims
  {
    if claims != [] && ep !in claims[0].orderedEpisodeIds {
      NamingIsAClaim(claims[1..], ep);
    }
  }

  lemma {:induction false} ClaimHasALatest(claims: seq<EntryClaim>, c: EntryClaim)
    requires c in claims
    ensures LatestOf(claims, c.alId).Some?
  {
    var n := |claims| - 1;
    if c != claims[n] {
      assert claims == claims[..n] + [claims[n]];
      ClaimHasALatest(claims[..n], c);
    }
  }

  /** However another claim's evidence changes, an episode a scoped claim names keeps its judgment. */
  lemma OwnEvidenceOnly(p: Poll, lists: map<int, EpisodeIndex>, ep: int, intended: Option<int>, j: nat, guards: Guards)
    requires j < |p.record.claims|
    requires
      var naming := FirstNaming(p.record.claims, ep);
      naming.Some? && naming.value.alId != p.record.claims[j].alId
    ensures
      var other := p.(record := p.record.(claims := WithGuards(p.record.claims, j, guards)));
      JudgeEpisode(other, lists, ep, intended) == JudgeEpisode(p, lists, ep, intended)
  {
    NamingIgnoresGuards(p.record.claims, j, guards, ep);
    NamingIsAClaim(p.record.claims, ep);
    ClaimHasALatest(p.record.claims, FirstNaming(p.record.claims, ep).value);
    LatestIgnoresGuards(p.record.claims, j, guards, FirstNaming(p.record.claims, ep).value.alId);
  }
}
