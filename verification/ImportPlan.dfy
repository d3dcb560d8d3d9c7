/** The per-file import plan over a record's map, and what a posted plan leaves behind (import_files.py,
  * sonarr_import.py).
  */
module ImportPlans {
  import opened Wrappers
  import opened Unambiguous
  import opened PendingRecords
  import opened PendingClaims
  import opened TrustPolicies
  import opened EpisodeStates

  /** A file of the folder scan, and what Sonarr's rejections say of it. */
  datatype Candidate = Candidate(path: string, isSample: bool, isAlreadyImported: bool)

  /** `candidate_files`: the last scanned file of each folded name, pathless ones aside. */
  function Latest(leaf: string -> string, scan: seq<Candidate>): map<string, Candidate> {
    if scan == [] then map[]
    else
      var before, last := Latest(leaf, scan[..|scan| - 1]), scan[|scan| - 1];
      if last.path == "" then before else before[leaf(last.path) := last]
  }

  /** Scanned file `i` has the folded name and a path, and no later one does. */
  predicate LastNamed(leaf: string -> string, scan: seq<Candidate>, i: nat, name: string)
    requires i < |scan|
  {
    && scan[i].path != "" && leaf(scan[i].path) == name
    && forall j :: i < j < |scan| && scan[j].path != "" ==> leaf(scan[j].path) != name
  }

  lemma LastNamedGoesOn(leaf: string -> string, scan: seq<Candidate>, n: nat, i: nat, name: string)
    requires i < n == |scan| - 1
    ensures LastNamed(leaf, scan, i, name) <==>
      LastNamed(leaf, scan[..n], i, name) && !LastNamed(leaf, scan, n, name)
  {
    assert forall j :: 0 <= j < n ==> scan[..n][j] == scan[j];
  }

  /** A name holds a file exactly when some scanned file is its last, and then that one. */
  lemma {:induction false} LatestIsLast(leaf: string -> string, scan: seq<Candidate>, name: string)
    ensures name in Latest(leaf, scan) <==> exists i: nat | i < |scan| :: LastNamed(leaf, scan, i, name)
    ensures forall i: nat | i < |scan| && LastNamed(leaf, scan, i, name) ::
      name in Latest(leaf, scan) && Latest(leaf, scan)[name] == scan[i]
  {
    if scan != [] {
      var n := |scan| - 1;
      LatestIsLast(leaf, scan[..n], name);
      if !LastNamed(leaf, scan, n, name) {
        assert name in Latest(leaf, scan) <==> name in Latest(leaf, scan[..n]);
      }
      forall i: nat | i < n
        ensures LastNamed(leaf, scan, i, name) <==>
          LastNamed(leaf, scan[..n], i, name) && !LastNamed(leaf, scan, n, name)
        ensures scan[..n][i] == scan[i]
      {
        LastNamedGoesOn(leaf, scan, n, i, name);
      }
    }
  }

  method CandidateFiles(leaf: string -> string, scan: seq<Candidate>) returns (byName: map<string, Candidate>)
    ensures byName == Latest(leaf, scan)
    ensures forall name :: name in byName <==> exists i: nat | i < |scan| :: LastNamed(leaf, scan, i, name)
    ensures forall name, i: nat | i < |scan| && LastNamed(leaf, scan, i, name) ::
      name in byName && byName[name] == scan[i]
  {
    byName := map[];
    for i := 0 to |scan|
      invariant byName == Latest(leaf, scan[..i])
    {
      assert scan[..i + 1][..i] == scan[..i];
      if scan[i].path != "" {
        byName := byName[leaf(scan[i].path) := scan[i]];
      }
    }
    assert scan[..|scan|] == scan;
    forall name
      ensures name in byName <==> exists i: nat | i < |scan| :: LastNamed(leaf, scan, i, name)
      ensures forall i: nat | i < |scan| && LastNamed(leaf, scan, i, name) ::
        name in byName && byName[name] == scan[i]
    {
      LatestIsLast(leaf, scan, name);
    }
  }

  /** The targets' judgments, one for each id the map names. */
  type Statuses = map<int, Judgment>

  function MapStatuses(p: Poll, lists: map<int, EpisodeIndex>, m: FileMap): Statuses {
    map e <- m, ep <- e.1 :: ep := TargetOf(p, lists, m, ep)
  }

  predicate Needing(statuses: Statuses, ep: int) {
    ep in statuses && statuses[ep].status != Recommended
  }

  predicate HoldsOwnCopy(statuses: Statuses, ep: int) {
    ep in statuses && statuses[ep].ownCopy
  }

  function Takers(statuses: Statuses, ids: seq<int>): seq<int> {
    if ids == [] then []
    else
      (if Needing(statuses, ids[0]) || HoldsOwnCopy(statuses, ids[0]) then [ids[0]] else [])
        + Takers(statuses, ids[1..])
  }

  /** `import_ids`. */
  function ImportIds(statuses: Statuses, ids: seq<int>): seq<int> {
    if exists ep :: ep in ids && Needing(statuses, ep) then Takers(statuses, ids) else []
  }

  datatype Action = Import | SkipDone | Sample | Already | Missing

  datatype Decision = Decision(basename: string, action: Action, path: Option<string>, episodeIds: seq<int>)

  function Decide(entry: (string, seq<int>), candidates: map<string, Candidate>, statuses: Statuses): Decision {
    if entry.0 !in candidates then Decision(entry.0, Missing, None, entry.1)
    else
      var candidate := candidates[entry.0];
      var ids := ImportIds(statuses, entry.1);
      if candidate.isSample then Decision(entry.0, Sample, Some(candidate.path), [])
      else if ids == [] then
        Decision(entry.0, if candidate.isAlreadyImported then Already else SkipDone, Some(candidate.path), entry.1)
      else Decision(entry.0, Import, Some(candidate.path), ids)
  }

  function Plan(m: FileMap, candidates: map<string, Candidate>, statuses: Statuses): seq<Decision> {
    seq(|m|, i requires 0 <= i < |m| => Decide(m[i], candidates, statuses))
  }

  /** `plan_import_files`: one decision for each map entry, in its order. */
  method PlanImportFiles(m: FileMap, candidates: map<string, Candidate>, statuses: Statuses)
    returns (decisions: seq<Decision>)
    ensures decisions == Plan(m, candidates, statuses)
  {
    decisions := [];
    for i := 0 to |m|
      invariant |decisions| == i && forall k :: 0 <= k < i ==> decisions[k] == Decide(m[k], candidates, statuses)
    {
      var (basename, ids) := m[i];
      if basename !in candidates {
        decisions := decisions + [Decision(basename, Missing, None, ids)];
        continue;
      }
      var candidate := candidates[basename];
      if candidate.isSample {
        decisions := decisions + [Decision(basename, Sample, Some(candidate.path), [])];
        continue;
      }
      var importIds := ImportIds(statuses, ids);
      if importIds == [] {
        var action := if candidate.isAlreadyImported then Already else SkipDone;
        decisions := decisions + [Decision(basename, action, Some(candidate.path), ids)];
        continue;
      }
      decisions := decisions + [Decision(basename, Import, Some(candidate.path), importIds)];
    }
  }

  predicate OnDisk(candidates: map<string, Candidate>, name: string) {
    name in candidates && !candidates[name].isSample
  }

  lemma {:induction false} TakersHold(statuses: Statuses, ids: seq<int>, ep: int)
    ensures ep in Takers(statuses, ids) <==> ep in ids && (Needing(statuses, ep) || HoldsOwnCopy(statuses, ep))
  {
    if ids != [] {
      TakersHold(statuses, ids[1..], ep);
      assert ep in ids <==> ep == ids[0] || ep in ids[1..];
    }
  }

  lemma StatusesAre(p: Poll, lists: map<int, EpisodeIndex>, m: FileMap, i: nat, ep: int)
    requires i < |m| && ep in m[i].1
    ensures ep in MapStatuses(p, lists, m) && MapStatuses(p, lists, m)[ep] == TargetOf(p, lists, m, ep)
  {
    assert m[i] in m;
  }

  lemma ImportIdsAre(statuses: Statuses, ids: seq<int>, ep: int)
    ensures ImportIds(statuses, ids) != [] <==> exists e :: e in ids && Needing(statuses, e)
    ensures ep in ImportIds(statuses, ids) <==>
            && ep in ids && (Needing(statuses, ep) || HoldsOwnCopy(statuses, ep))
            && exists e :: e in ids && Needing(statuses, e)
  {
    TakersHold(statuses, ids, ep);
    if e :| e in ids && Needing(statuses, e) {
      TakersHold(statuses, ids, e);
    }
  }

  /** The index that judges the episode holds a file of it at one of the torrent's own sizes. */
  predicate HoldsOwnSize(p: Poll, lists: map<int, EpisodeIndex>, ep: int) {
    var judging := Judging(p.record.claims, lists, ep);
    && judging.Some? && judging.value.0 in lists && ep in lists[judging.value.0]
    && var e := lists[judging.value.0][ep];
    && e.fileId != 0 && e.file.Some? && e.file.value.size.Some? && e.file.value.size.value in p.record.releaseSizes
  }

  lemma DecidedExactly(entry: (string, seq<int>), candidates: map<string, Candidate>, statuses: Statuses, ep: int)
    ensures
      var d := Decide(entry, candidates, statuses);
      && d.basename == entry.0
      && (d.action == Import <==> OnDisk(candidates, entry.0) && exists e :: e in entry.1 && Needing(statuses, e))
      && (d.action == Import ==>
            && d.path == Some(candidates[entry.0].path)
            && (ep in d.episodeIds <==> ep in entry.1 && (Needing(statuses, ep) || HoldsOwnCopy(statuses, ep))))
  {
    ImportIdsAre(statuses, entry.1, ep);
  }

  lemma OwnSizeIs(p: Poll, lists: map<int, EpisodeIndex>, m: FileMap, ep: int)
    ensures TargetOf(p, lists, m, ep).ownCopy <==> HoldsOwnSize(p, lists, ep)
  {
  }

  /** Never skip, never overwrite: a file is imported exactly when it is on disk, no sample, and an episode of it
    * needs it; it then goes onto exactly those of its episodes that hold no recommended file, or a file at one of the
    * torrent's own sizes.
    */
  lemma PlanIsExact(p: Poll, lists: map<int, EpisodeIndex>, m: FileMap, candidates: map<string, Candidate>, i: nat,
                    ep: int)
    requires i < |m|
    ensures
      var d := Plan(m, candidates, MapStatuses(p, lists, m))[i];
      && d.basename == m[i].0
      && (d.action == Import <==>
            OnDisk(candidates, m[i].0) && exists e :: e in m[i].1 && Needs(p, lists, m, e))
      && (d.action == Import ==>
            && d.path == Some(candidates[m[i].0].path)
            && (ep in d.episodeIds <==>
                  ep in m[i].1 && (Needs(p, lists, m, ep) || HoldsOwnSize(p, lists, ep))))
  {
    var statuses, ids := MapStatuses(p, lists, m), m[i].1;
    DecidedExactly(m[i], candidates, statuses, ep);
    forall e | e in ids
      ensures Needing(statuses, e) == Needs(p, lists, m, e)
      ensures HoldsOwnCopy(statuses, e) == HoldsOwnSize(p, lists, e)
    {
      OwnSizeIs(p, lists, m, e);
      StatusesAre(p, lists, m, i, e);
    }
    assert (exists e :: e in ids && Needing(statuses, e)) <==> exists e :: e in ids && Needs(p, lists, m, e);
  }

  /** The judging index holds the episode, so a posted file can show up there. */
  predicate Held(p: Poll, lists: map<int, EpisodeIndex>, ep: int) {
    var judging := Judging(p.record.claims, lists, ep);
    judging.Some? && ep in ListOf(lists, judging.value.0)
  }

  // What lands.

  /** `posting_series`: the route's series, else a one-series record's. */
  function PostingSeries(p: Poll, lists: map<int, EpisodeIndex>, ep: int): Option<int> {
    var series := RouteOf(p.record.claims, lists, ep).series;
    var all := SeriesIds(p.record.claims);
    if series.Some? then series else if |all| == 1 then Some(all[0]) else None
  }

  predicate Posted(p: Poll, lists: map<int, EpisodeIndex>, d: Decision) {
    d.action == Import && d.episodeIds != [] && PostingSeries(p, lists, d.episodeIds[0]).Some?
  }

  predicate WaitsFor(p: Poll, lists: map<int, EpisodeIndex>, d: Decision) {
    d.action == Missing || (d.action == Import && !Posted(p, lists, d))
  }

  ghost predicate OneFileEach(m: FileMap) {
    forall i, j, ep :: 0 <= i < j < |m| && ep in m[i].1 ==> ep !in m[j].1
  }

  /** The own group normalizes to something, and every listed size is one of the release's. */
  ghost predicate ListedByOwnGroup(p: Poll, m: FileMap) {
    && p.record.releaseGroup != "" && p.norm(p.record.releaseGroup) != ""
    && forall i :: 0 <= i < |m| ==>
         m[i].0 in p.record.sizesByName && p.record.sizesByName[m[i].0] in p.record.releaseSizes
  }

  /** The episode holds a file of the own group at a size. */
  predicate HoldsOurs(p: Poll, e: Episode, size: int) {
    && e.fileId != 0 && e.file.Some? && e.file.value.size == Some(size)
    && e.file.value.group.GetOr("") != "" && p.norm(e.file.value.group.value) == p.norm(p.record.releaseGroup)
  }

  predicate PostedOnto(p: Poll, lists: map<int, EpisodeIndex>, plan: seq<Decision>, i: int, ep: int)
    requires 0 <= i < |plan|
  {
    Posted(p, lists, plan[i]) && ep in plan[i].episodeIds
  }

  /** After a plan's posted files landed: each episode it posted holds its file, at the file's listed size, and every
    * other is as it was.
    */
  ghost predicate Landed(p: Poll, m: FileMap, plan: seq<Decision>, before: map<int, EpisodeIndex>,
                         after: map<int, EpisodeIndex>)
    requires |plan| == |m|
    requires forall i :: 0 <= i < |m| ==> m[i].0 in p.record.sizesByName
  {
    && after.Keys == before.Keys
    && (forall s :: s in before ==> after[s].Keys == before[s].Keys)
    && (forall s, i, ep :: s in before && ep in before[s] && 0 <= i < |plan| && PostedOnto(p, before, plan, i, ep) ==>
          HoldsOurs(p, after[s][ep], p.record.sizesByName[m[i].0]))
    && (forall s, ep ::
          s in before && ep in before[s] && (forall i :: 0 <= i < |plan| ==> !PostedOnto(p, before, plan, i, ep)) ==>
            after[s][ep] == before[s][ep])
  }

  // The intended size of an episode one file maps.

  lemma {:induction false} SizePairsFrom(m: FileMap, listed: map<string, int>, pair: (int, int))
    ensures pair in SizePairs(m, listed) <==>
            exists i :: 0 <= i < |m| && m[i].0 in listed && pair.0 in m[i].1 && pair.1 == listed[m[i].0]
  {
    if m != [] {
      var head := if m[0].0 in listed then IdPairs(m[0].1, listed[m[0].0]) else [];
      SizePairsFrom(m[1..], listed, pair);
      if m[0].0 in listed && pair.0 in m[0].1 && pair.1 == listed[m[0].0] {
        var k :| 0 <= k < |m[0].1| && m[0].1[k] == pair.0;
        assert head[k] == pair;
      }
      if pair in SizePairs(m[1..], listed) {
        var i :| 0 <= i < |m[1..]| && m[1..][i].0 in listed && pair.0 in m[1..][i].1 && pair.1 == listed[m[1..][i].0];
        assert m[i + 1] == m[1..][i];
      }
      if i :| 0 <= i < |m| && m[i].0 in listed && pair.0 in m[i].1 && pair.1 == listed[m[i].0] {
        assert i > 0 ==> m[1..][i - 1] == m[i];
      }
    }
  }

  lemma OneFileIntends(m: FileMap, listed: map<string, int>, i: nat, ep: int)
    requires OneFileEach(m) && i < |m| && ep in m[i].1 && m[i].0 in listed
    ensures IntendedSize(m, listed, ep) == Some(listed[m[i].0])
  {
    var pairs, size := SizePairs(m, listed), listed[m[i].0];
    SizePairsFrom(m, listed, (ep, size));
    forall k | 0 <= k < |pairs| && pairs[k].0 == ep ensures pairs[k].1 == size {
      SizePairsFrom(m, listed, pairs[k]);
    }
    assert Pairs(pairs, ep, size);
    KeptExactly(pairs, ep, size);
  }

  // Landing keeps every route.

  lemma {:induction false} HoldingStays(series: seq<int>, before: map<int, EpisodeIndex>,
                                        after: map<int, EpisodeIndex>, ep: int)
    requires after.Keys == before.Keys && (forall s :: s in before ==> after[s].Keys == before[s].Keys)
    ensures FirstHolding(series, after, ep) == FirstHolding(series, before, ep)
  {
    if series != [] {
      HoldingStays(series[1..], before, after, ep);
    }
  }

  lemma JudgingStays(p: Poll, before: map<int, EpisodeIndex>, after: map<int, EpisodeIndex>, ep: int)
    requires after.Keys == before.Keys && (forall s :: s in before ==> after[s].Keys == before[s].Keys)
    ensures Judging(p.record.claims, after, ep) == Judging(p.record.claims, before, ep)
  {
    HoldingStays(SeriesIds(p.record.claims), before, after, ep);
  }

  /** A file of the own group at the intended size is recommended, whatever else the evidence trusts. */
  lemma OursIsRecommended(p: Poll, m: FileMap, episodes: EpisodeIndex, guards: Guards, siblings: seq<OwnGroup>,
                          ep: int, size: int)
    requires p.record.releaseGroup != "" && p.norm(p.record.releaseGroup) != "" && size in p.record.releaseSizes
    requires ep in episodes && HoldsOurs(p, episodes[ep], size)
    ensures
      var s := Guarded(p.norm, episodes, guards, GroupVotes(OwnGroupOf(p.record), siblings));
      Judge(p.norm, s, ep, Some(size)).status == Recommended
  {
    assert size in OwnSizes(p.norm, GroupVotes(OwnGroupOf(p.record), siblings));
  }

  lemma PostedIsRecommended(p: Poll, m: FileMap, plan: seq<Decision>, before: map<int, EpisodeIndex>,
                            after: map<int, EpisodeIndex>, i: nat, ep: int)
    requires OneFileEach(m) && ListedByOwnGroup(p, m) && |plan| == |m| && Landed(p, m, plan, before, after)
    requires i < |m| && PostedOnto(p, before, plan, i, ep) && ep in m[i].1 && Held(p, before, ep)
    ensures !Needs(p, after, m, ep)
  {
    JudgingStays(p, before, after, ep);
    OneFileIntends(m, p.record.sizesByName, i, ep);
    var (series, guards) := Judging(p.record.claims, before, ep).value;
    assert series in before && ep in before[series];
    OursIsRecommended(p, m, after[series], guards, p.siblings(series), ep, p.record.sizesByName[m[i].0]);
  }

  lemma UnheldStaysAbsent(p: Poll, m: FileMap, before: map<int, EpisodeIndex>, after: map<int, EpisodeIndex>, ep: int)
    requires after.Keys == before.Keys && (forall s :: s in before ==> after[s].Keys == before[s].Keys)
    requires !Held(p, before, ep)
    ensures Needs(p, after, m, ep)
  {
    JudgingStays(p, before, after, ep);
  }

  /** An episode the plan did not post is judged as it was. */
  lemma UnpostedIsUnchanged(p: Poll, m: FileMap, plan: seq<Decision>, before: map<int, EpisodeIndex>,
                            after: map<int, EpisodeIndex>, ep: int)
    requires ListedByOwnGroup(p, m) && |plan| == |m| && Landed(p, m, plan, before, after)
    requires forall i :: 0 <= i < |plan| ==> !PostedOnto(p, before, plan, i, ep)
    ensures TargetOf(p, after, m, ep) == TargetOf(p, before, m, ep)
  {
    JudgingStays(p, before, after, ep);
  }

  /** A file whose first import episode is held goes to a series. */
  lemma HeldIsPosted(p: Poll, lists: map<int, EpisodeIndex>, d: Decision)
    requires d.action == Import && d.episodeIds != [] && Held(p, lists, d.episodeIds[0])
    ensures Posted(p, lists, d)
  {
  }

  ghost predicate AllHeld(p: Poll, lists: map<int, EpisodeIndex>, ids: seq<int>) {
    forall ep :: ep in ids ==> Held(p, lists, ep)
  }

  /** After the landing a file seen on disk is needed no more, if its episodes are held. */
  lemma AfterLanding(p: Poll, m: FileMap, candidates: map<string, Candidate>, before: map<int, EpisodeIndex>,
                     after: map<int, EpisodeIndex>, i: nat, ep: int)
    requires OneFileEach(m) && ListedByOwnGroup(p, m) && i < |m| && ep in m[i].1 && OnDisk(candidates, m[i].0)
    requires Landed(p, m, Plan(m, candidates, MapStatuses(p, before, m)), before, after)
    requires AllHeld(p, before, m[i].1)
    ensures !Needs(p, after, m, ep)
  {
    var plan := Plan(m, candidates, MapStatuses(p, before, m));
    PlanIsExact(p, before, m, candidates, i, ep);
    if plan[i].action == Import && ep in plan[i].episodeIds {
      PlanIsExact(p, before, m, candidates, i, plan[i].episodeIds[0]);
      HeldIsPosted(p, before, plan[i]);
      PostedIsRecommended(p, m, plan, before, after, i, ep);
    } else {
      forall k: nat | k < |plan| ensures !PostedOnto(p, before, plan, k, ep) {
        PlanIsExact(p, before, m, candidates, k, ep);
      }
      UnpostedIsUnchanged(p, m, plan, before, after, ep);
    }
  }

  /** Convergence, exactly: once a plan's files landed, a later plan imports a file the earlier scan saw only if it is
    * still on disk and one of its episodes is held by no index that judges it.
    */
  lemma ReplanImportsIff(
      p: Poll, m: FileMap, first: map<string, Candidate>, second: map<string, Candidate>,
      before: map<int, EpisodeIndex>, after: map<int, EpisodeIndex>, i: nat)
    requires OneFileEach(m) && ListedByOwnGroup(p, m) && i < |m| && OnDisk(first, m[i].0)
    requires Landed(p, m, Plan(m, first, MapStatuses(p, before, m)), before, after)
    ensures Plan(m, second, MapStatuses(p, after, m))[i].action == Import <==>
            OnDisk(second, m[i].0) && !AllHeld(p, before, m[i].1)
  {
    PlanIsExact(p, after, m, second, i, 0);
    if AllHeld(p, before, m[i].1) {
      forall ep | ep in m[i].1 ensures !Needs(p, after, m, ep) {
        AfterLanding(p, m, first, before, after, i, ep);
      }
    } else {
      var ep :| ep in m[i].1 && !Held(p, before, ep);
      UnheldStaysAbsent(p, m, before, after, ep);
    }
  }

  /** Import convergence: when the judging indexes hold every mapped episode and the second scan sees no file the first
    * did not, a plan made after the landing imports nothing.
    */
  lemma ReplanIsQuiet(
      p: Poll, m: FileMap, first: map<string, Candidate>, second: map<string, Candidate>,
      before: map<int, EpisodeIndex>, after: map<int, EpisodeIndex>)
    requires OneFileEach(m) && ListedByOwnGroup(p, m)
    requires Landed(p, m, Plan(m, first, MapStatuses(p, before, m)), before, after)
    requires forall i :: 0 <= i < |m| && OnDisk(second, m[i].0) ==> OnDisk(first, m[i].0)
    requires forall i :: 0 <= i < |m| ==> AllHeld(p, before, m[i].1)
    ensures forall i :: 0 <= i < |m| ==> Plan(m, second, MapStatuses(p, after, m))[i].action != Import
  {
    forall i: nat | i < |m| ensures Plan(m, second, MapStatuses(p, after, m))[i].action != Import {
      if OnDisk(first, m[i].0) {
        ReplanImportsIff(p, m, first, second, before, after, i);
      } else {
        PlanIsExact(p, after, m, second, i, 0);
      }
    }
  }

  // The poll's verdict.

  datatype Verdict = VerifiedImported | Waits | Posts

  /** `all_done`. */
  predicate AllDone(statuses: Statuses) {
    statuses != map[] && forall ep <- statuses.Keys :: statuses[ep].status == Recommended
  }

  /** `_verify_or_import` up to the command it issues. */
  function VerdictOf(p: Poll, lists: map<int, EpisodeIndex>, m: FileMap, candidates: map<string, Candidate>): Verdict {
    var statuses := MapStatuses(p, lists, m);
    if AllDone(statuses) then VerifiedImported
    else if m == [] then Waits
    else
      var plan := Plan(m, candidates, statuses);
      if exists i :: 0 <= i < |plan| && Posted(p, lists, plan[i]) then Posts
      else if exists i :: 0 <= i < |plan| && WaitsFor(p, lists, plan[i]) then Waits
      else VerifiedImported
  }

  /** A record verifies as imported exactly when its targets are all done, or every mapped file is on disk and each is a
    * sample or needed by no episode.
    */
  lemma VerifiedIff(p: Poll, lists: map<int, EpisodeIndex>, m: FileMap, candidates: map<string, Candidate>)
    ensures VerdictOf(p, lists, m, candidates) == VerifiedImported <==>
            || AllDone(MapStatuses(p, lists, m))
            || (m != [] && forall i :: 0 <= i < |m| ==>
                  m[i].0 in candidates
                  && (candidates[m[i].0].isSample || forall ep :: ep in m[i].1 ==> !Needs(p, lists, m, ep)))
  {
    var plan := Plan(m, candidates, MapStatuses(p, lists, m));
    forall i: nat | i < |m|
      ensures !Posted(p, lists, plan[i]) && !WaitsFor(p, lists, plan[i]) <==>
              m[i].0 in candidates
              && (candidates[m[i].0].isSample || forall ep :: ep in m[i].1 ==> !Needs(p, lists, m, ep))
    {
      PlanIsExact(p, lists, m, candidates, i, 0);
    }
  }

  /** So a verified record may still need an episode, but only one whose every file is a sample on disk. */
  lemma VerifiedNeedsOnlySamples(p: Poll, lists: map<int, EpisodeIndex>, m: FileMap,
                                 candidates: map<string, Candidate>, i: nat, ep: int)
    requires VerdictOf(p, lists, m, candidates) == VerifiedImported
    requires i < |m| && ep in m[i].1 && Needs(p, lists, m, ep)
    ensures m[i].0 in candidates && candidates[m[i].0].isSample
  {
    VerifiedIff(p, lists, m, candidates);
    assert m[i] in m && MapStatuses(p, lists, m)[ep] == TargetOf(p, lists, m, ep);
  }

  /** It does: a record whose one file is a sample on disk verifies as imported, its claimed episode still empty. */
  lemma ASampleVerifies(p: Poll, claim: EntryClaim)
    requires p.record.claims == [claim] && claim.orderedEpisodeIds == [1] && p.record.fileEpisodeMap == [("ep", [1])]
    ensures
      var lists := map[claim.seriesId := map[1 := Episode(0, None)]];
      var candidates := map["ep" := Candidate("/ep", true, false)];
      && Held(p, lists, 1)
      && VerdictOf(p, lists, p.record.fileEpisodeMap, candidates) == VerifiedImported
      && TargetOf(p, lists, p.record.fileEpisodeMap, 1).status == Absent
  {
    var lists := map[claim.seriesId := map[1 := Episode(0, None)]];
    assert LatestOf([claim], claim.alId) == Some(claim);
    VerifiedIff(p, lists, p.record.fileEpisodeMap, map["ep" := Candidate("/ep", true, false)]);
  }

  lemma StatusesCover(p: Poll, lists: map<int, EpisodeIndex>, m: FileMap)
    ensures forall ep :: ep in MapStatuses(p, lists, m) <==> MapsTo(m, ep)
    ensures forall ep :: MapsTo(m, ep) ==>
      (MapStatuses(p, lists, m)[ep].status == Recommended <==> !Needs(p, lists, m, ep))
  {
    forall ep ensures ep in MapStatuses(p, lists, m) <==> MapsTo(m, ep) {
      if ep in MapStatuses(p, lists, m) {
        var e :| e in m && ep in e.1;
        var i :| 0 <= i < |m| && m[i] == e;
        assert ep in m[i].1;
      }
      if MapsTo(m, ep) {
        var i: nat :| i < |m| && ep in m[i].1;
        StatusesAre(p, lists, m, i, ep);
      }
    }
  }

  lemma AllDoneIff(p: Poll, lists: map<int, EpisodeIndex>, m: FileMap)
    ensures AllDone(MapStatuses(p, lists, m)) <==>
            (exists ep :: MapsTo(m, ep)) && forall ep :: MapsTo(m, ep) ==> !Needs(p, lists, m, ep)
  {
    StatusesCover(p, lists, m);
    var statuses := MapStatuses(p, lists, m);
    assert statuses != map[] ==> exists ep :: ep in statuses;
  }

  /** A landed import verifies exactly when the judging indexes hold every mapped episode, all files seen on disk. */
  lemma LandedImportVerifies(
      p: Poll, m: FileMap, first: map<string, Candidate>, before: map<int, EpisodeIndex>, after: map<int, EpisodeIndex>)
    requires OneFileEach(m) && ListedByOwnGroup(p, m)
    requires Landed(p, m, Plan(m, first, MapStatuses(p, before, m)), before, after)
    requires exists ep :: MapsTo(m, ep)
    requires forall i :: 0 <= i < |m| ==> OnDisk(first, m[i].0)
    ensures AllDone(MapStatuses(p, after, m)) <==> forall i :: 0 <= i < |m| ==> AllHeld(p, before, m[i].1)
  {
    AllDoneIff(p, after, m);
    forall i: nat, ep | i < |m| && ep in m[i].1
      ensures AllHeld(p, before, m[i].1) ==> !Needs(p, after, m, ep)
      ensures !Held(p, before, ep) ==> Needs(p, after, m, ep)
    {
      if AllHeld(p, before, m[i].1) {
        AfterLanding(p, m, first, before, after, i, ep);
      }
      if !Held(p, before, ep) {
        UnheldStaysAbsent(p, m, before, after, ep);
      }
    }
  }
}
