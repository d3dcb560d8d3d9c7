/** What the import plan decides of each mapped file, told from the scan and the judgments: every action, the episodes
  * in order, the size each is meant to have, and where a posted file goes.
  */
module PlanLaws {
  import opened Wrappers
  import opened Unambiguous
  import opened PendingRecords
  import opened TrustPolicies
  import opened EpisodeStates
  import opened JudgeLaws
  import opened ImportPlans

  /** A mapped listed file gives the episode this size. */
  predicate SizedBy(m: FileMap, listed: map<string, int>, ep: int, size: int) {
    exists i :: 0 <= i < |m| && m[i].0 in listed && ep in m[i].1 && listed[m[i].0] == size
  }

  /** An episode is meant to have the size its mapped files list, where they list one alone. */
  lemma IntendedIs(m: FileMap, listed: map<string, int>, ep: int, size: int)
    ensures IntendedSize(m, listed, ep) == Some(size) <==>
      SizedBy(m, listed, ep, size) && forall other :: SizedBy(m, listed, ep, other) ==> other == size
  {
    var pairs := SizePairs(m, listed);
    KeptExactly(pairs, ep, size);
    forall x ensures (ep, x) in pairs <==> SizedBy(m, listed, ep, x) {
      SizePairsFrom(m, listed, (ep, x));
    }
    forall i | 0 <= i < |pairs| && pairs[i].0 == ep ensures SizedBy(m, listed, ep, pairs[i].1) {
      assert pairs[i] == (ep, pairs[i].1) && pairs[i] in pairs;
    }
    if Pairs(pairs, ep, size) {
      forall other | SizedBy(m, listed, ep, other) ensures other == size {
        var i :| 0 <= i < |pairs| && pairs[i] == (ep, other);
      }
    }
  }

  /** What judges an episode: its route's evidence over its series' list, with the torrent's own group and that series'
    * other grabs, against the size the map means it to have.
    */
  lemma TargetIs(p: Poll, lists: map<int, EpisodeIndex>, m: FileMap, ep: int)
    ensures
      var judging := Judging(p.record.claims, lists, ep);
      if judging.None? then TargetOf(p, lists, m, ep) == Judgment(Absent, false)
      else
        var (series, guards) := judging.value;
        var episodes := if series in lists then lists[series] else map[];
        var votes := GroupVotes(OwnGroup(p.record.releaseGroup, p.record.releaseSizes), p.siblings(series));
        TargetOf(p, lists, m, ep) ==
          Judge(p.norm, Guarded(p.norm, episodes, guards, votes), ep, IntendedSize(m, p.record.sizesByName, ep))
  {
  }

  /** An episode of the map needs its file unless its target is recommended. */
  predicate Wants(statuses: Statuses, ep: int) {
    ep in statuses && statuses[ep].status != Recommended
  }

  /** The episodes a file is posted onto: in the map's order, those that want it and those with a copy of our own. */
  function Onto(statuses: Statuses, ids: seq<int>): seq<int> {
    if ids == [] then []
    else
      var last := ids[|ids| - 1];
      var takes := last in statuses && (statuses[last].status != Recommended || statuses[last].ownCopy);
      Onto(statuses, ids[..|ids| - 1]) + if takes then [last] else []
  }

  lemma {:induction false} TakersOfMore(statuses: Statuses, ids: seq<int>, ep: int)
    ensures Takers(statuses, ids + [ep]) ==
            Takers(statuses, ids) + if Needing(statuses, ep) || HoldsOwnCopy(statuses, ep) then [ep] else []
  {
    if ids == [] {
      assert ids + [ep] == [ep] && [ep][1..] == [];
    } else {
      var more := ids + [ep];
      assert more[1..] == ids[1..] + [ep] && more[0] == ids[0];
      TakersOfMore(statuses, ids[1..], ep);
      var head := if Needing(statuses, ids[0]) || HoldsOwnCopy(statuses, ids[0]) then [ids[0]] else [];
      assert Takers(statuses, more) == head + Takers(statuses, more[1..]);
      assert Takers(statuses, ids) == head + Takers(statuses, ids[1..]);
    }
  }

  lemma {:induction false} TakersAre(statuses: Statuses, ids: seq<int>)
    ensures Takers(statuses, ids) == Onto(statuses, ids)
  {
    if ids != [] {
      var n := |ids| - 1;
      TakersAre(statuses, ids[..n]);
      TakersOfMore(statuses, ids[..n], ids[n]);
      assert ids == ids[..n] + [ids[n]];
    }
  }

  /** The decision of a mapped file in full. One not on disk is missing, a sample is left alone, one no episode wants is
    * done or already imported as the scan says, and any other is imported onto its episodes in order.
    */
  lemma DecisionIs(entry: (string, seq<int>), candidates: map<string, Candidate>, statuses: Statuses)
    ensures
      var d := Decide(entry, candidates, statuses);
      var wanted := exists ep :: ep in entry.1 && Wants(statuses, ep);
      && d.basename == entry.0
      && (if entry.0 !in candidates then d.action == Missing && d.path == None && d.episodeIds == entry.1
          else
            && d.path == Some(candidates[entry.0].path)
            && (if candidates[entry.0].isSample then d.action == Sample && d.episodeIds == []
                else if wanted then d.action == Import && d.episodeIds == Onto(statuses, entry.1)
                else
                  && d.action == (if candidates[entry.0].isAlreadyImported then Already else SkipDone)
                  && d.episodeIds == entry.1))
  {
    var ids := entry.1;
    TakersAre(statuses, ids);
    forall ep ensures Wants(statuses, ep) <==> Needing(statuses, ep) {
    }
    ImportIdsAre(statuses, ids, 0);
  }

  // Where a posted file goes.

  /** A posted file goes to the series its first episode is routed to. */
  lemma RoutedPosting(p: Poll, lists: map<int, EpisodeIndex>, ep: int)
    requires RouteOf(p.record.claims, lists, ep).series.Some?
    ensures PostingSeries(p, lists, ep) == RouteOf(p.record.claims, lists, ep).series
  {
  }

  lemma {:induction false} OneSeries(claims: seq<EntryClaim>, series: int)
    requires claims != [] && forall i :: 0 <= i < |claims| ==> claims[i].seriesId == series
    ensures SeriesIds(claims) == [series]
  {
    if |claims| > 1 {
      OneSeries(claims[..|claims| - 1], series);
    }
  }

  /** One routed nowhere goes to the record's series if all its claims are on one, and nowhere else. */
  lemma UnroutedPosting(p: Poll, lists: map<int, EpisodeIndex>, ep: int, series: int)
    requires RouteOf(p.record.claims, lists, ep).series.None?
    ensures PostingSeries(p, lists, ep) == Some(series) <==>
      |p.record.claims| > 0 && forall i :: 0 <= i < |p.record.claims| ==> p.record.claims[i].seriesId == series
  {
    var claims, all := p.record.claims, SeriesIds(p.record.claims);
    if PostingSeries(p, lists, ep) == Some(series) {
      SeriesAreClaimed(claims, series);
      forall i | 0 <= i < |claims| ensures claims[i].seriesId == series {
        SeriesAreClaimed(claims, claims[i].seriesId);
        assert claims[i].seriesId in all;
      }
    }
    if |claims| > 0 && forall i :: 0 <= i < |claims| ==> claims[i].seriesId == series {
      OneSeries(claims, series);
    }
  }

  /** An import with episodes whose first has a series to be posted to. */
  predicate GoesOut(p: Poll, lists: map<int, EpisodeIndex>, d: Decision) {
    d.action == Import && |d.episodeIds| > 0 && PostingSeries(p, lists, d.episodeIds[0]) != None
  }

  predicate SomeGoesOut(p: Poll, lists: map<int, EpisodeIndex>, plan: seq<Decision>) {
    exists i :: 0 <= i < |plan| && GoesOut(p, lists, plan[i])
  }

  predicate SomeIs(plan: seq<Decision>, action: Action) {
    exists i :: 0 <= i < |plan| && plan[i].action == action
  }

  lemma PostingIs(p: Poll, lists: map<int, EpisodeIndex>, plan: seq<Decision>)
    ensures (exists i :: 0 <= i < |plan| && Posted(p, lists, plan[i])) <==> SomeGoesOut(p, lists, plan)
    ensures !SomeGoesOut(p, lists, plan) ==>
      ((exists i :: 0 <= i < |plan| && WaitsFor(p, lists, plan[i])) <==> SomeIs(plan, Missing) || SomeIs(plan, Import))
  {
    forall i | 0 <= i < |plan|
      ensures Posted(p, lists, plan[i]) <==> GoesOut(p, lists, plan[i])
      ensures WaitsFor(p, lists, plan[i]) <==>
        plan[i].action == Missing || (plan[i].action == Import && !GoesOut(p, lists, plan[i]))
    {
    }
  }

  /** Every mapped episode, and some, is done. */
  ghost predicate AllTargetsDone(p: Poll, lists: map<int, EpisodeIndex>, m: FileMap) {
    (exists ep :: MapsTo(m, ep)) && forall ep :: MapsTo(m, ep) ==> !Needs(p, lists, m, ep)
  }

  /** What a poll does with a plan: done where every target is, it waits with nothing mapped; it posts once some
    * import has a series to go to, else waits for files missing or homeless, and else is done.
    */
  lemma VerdictIs(p: Poll, lists: map<int, EpisodeIndex>, m: FileMap, candidates: map<string, Candidate>)
    ensures
      var plan := Plan(m, candidates, MapStatuses(p, lists, m));
      VerdictOf(p, lists, m, candidates) ==
        if AllTargetsDone(p, lists, m) then VerifiedImported
        else if m == [] then Waits
        else if SomeGoesOut(p, lists, plan) then Posts
        else if SomeIs(plan, Missing) || SomeIs(plan, Import) then Waits
        else VerifiedImported
  {
    AllDoneIff(p, lists, m);
    PostingIs(p, lists, Plan(m, candidates, MapStatuses(p, lists, m)));
  }
}
