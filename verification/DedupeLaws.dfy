/** What the last loop of the reduction costs. It keeps the first url of each size multiset of a group and looks at
  * neither publicness nor episodes, so it can lose what the same-files phase preserved.
  */
module DedupeLaws {
  import opened Wrappers
  import opened ReductionSpec
  import opened ReductionLaws

  /** The episodes a repeat would have obtained. */
  function RepeatedKeys(urls: seq<Url>): set<EpisodeKey> {
    set i, k | 0 <= i < |urls| && Repeats(urls, i) && urls[i].isPublic && k in urls[i].keys :: k
  }

  /** The episodes the group's other flagged public urls carry. */
  function FirstKeys(urls: seq<Url>): set<EpisodeKey> {
    set i, k | 0 <= i < |urls| && !Repeats(urls, i) && urls[i].Obtains() && k in urls[i].keys :: k
  }

  lemma DedupeKeepsFirsts(urls: seq<Url>)
    ensures KeysOfUrls(DedupedUrls(urls)) == FirstKeys(urls)
    ensures KeysOfUrls(urls) == FirstKeys(urls) + RepeatedKeys(urls)
  {
    var after := DedupedUrls(urls);
    forall k | k in KeysOfUrls(after) ensures k in FirstKeys(urls) {
      var i :| 0 <= i < |after| && after[i].Obtains() && k in after[i].keys;
      assert !Repeats(urls, i);
    }
    forall k | k in FirstKeys(urls) ensures k in KeysOfUrls(after) && k in KeysOfUrls(urls) {
      var i :| 0 <= i < |urls| && !Repeats(urls, i) && urls[i].Obtains() && k in urls[i].keys;
      assert after[i] in after && urls[i] in urls;
    }
    forall k | k in RepeatedKeys(urls) ensures k in KeysOfUrls(urls) {
      var i :| 0 <= i < |urls| && Repeats(urls, i) && urls[i].isPublic && k in urls[i].keys;
      assert urls[i] in urls && urls[i].Obtains();
    }
    forall k | k in KeysOfUrls(urls) ensures k in FirstKeys(urls) + RepeatedKeys(urls) {
      var i :| 0 <= i < |urls| && urls[i].Obtains() && k in urls[i].keys;
      assert Repeats(urls, i) || !Repeats(urls, i);
    }
  }

  /** The episodes the repeats of a set's groups would have obtained. */
  function RepeatedIn(d: Listing, names: seq<nat>): set<EpisodeKey>
    requires Named(|d|, names)
  {
    set g, k | g in names && k in RepeatedKeys(d[g].urls) :: k
  }

  /** The episodes the other flagged public urls of the set carry. */
  function FirstIn(d: Listing, names: seq<nat>): set<EpisodeKey>
    requires Named(|d|, names)
  {
    set g, k | g in names && k in FirstKeys(d[g].urls) :: k
  }

  /** A set's coverage is what its first urls and its repeats carry, and the loop leaves the first urls'. */
  lemma DedupeLeavesFirsts(d: Listing, names: seq<nat>)
    requires Named(|d|, names)
    ensures SurvivorKeys(Deduped(d), names) == FirstIn(d, names)
    ensures SurvivorKeys(d, names) == FirstIn(d, names) + RepeatedIn(d, names)
  {
    forall g | g in names
      ensures KeysOfUrls(Deduped(d)[g].urls) == FirstKeys(d[g].urls)
      ensures KeysOfUrls(d[g].urls) == FirstKeys(d[g].urls) + RepeatedKeys(d[g].urls)
    {
      DedupeKeepsFirsts(d[g].urls);
    }
  }

  /** The loop keeps a set's coverage exactly when what the set's repeats carry, its first urls carry too. */
  lemma DedupeKeepsCoverageIff(d: Listing, names: seq<nat>)
    requires Named(|d|, names)
    ensures SurvivorKeys(Deduped(d), names) == SurvivorKeys(d, names) <==> RepeatedIn(d, names) <= FirstIn(d, names)
  {
    DedupeLeavesFirsts(d, names);
  }

  // The whole call.

  /** The phase keeps a set's coverage. */
  lemma PhaseKeepsSet(d: Listing, s: nat)
    requires s < |SetsOf(d, |d|)|
    ensures SurvivorKeys(d, SetsOf(d, |d|)[s]) <= SurvivorKeys(SameFilesPhase(d), SetsOf(d, |d|)[s])
  {
    var sets := SetsOf(d, |d|);
    SetsAreApart(d);
    forall k | k in SurvivorKeys(d, sets[s]) ensures k in SurvivorKeys(SameFilesPhase(d), sets[s]) {
      var p := SurvivorHasAUrl(d, sets[s], k);
      PhaseKeepsCoverage(d, sets, s, p, k);
    }
  }

  /** The call's exact cost. Through reduction, rescue and de-duplication a same-files set keeps every episode it
    * carried exactly when each of them that a repeat carries as the loop starts, a first url of the set carries too.
    */
  lemma CallKeepsCoverageIff(d: Listing, s: nat)
    requires s < |SetsOf(d, |d|)|
    ensures
      var names, phased := SetsOf(d, |d|)[s], SameFilesPhase(d);
      SurvivorKeys(d, names) <= SurvivorKeys(ReducedListing(d, false), names) <==>
        RepeatedIn(phased, names) * SurvivorKeys(d, names) <= FirstIn(phased, names)
  {
    PhaseKeepsSet(d, s);
    DedupeLeavesFirsts(SameFilesPhase(d), SetsOf(d, |d|)[s]);
  }

  /** What a public url carries, every earlier url of the group with its files carries too, and publicly. It reads no
    * flag, so a caller can check it before the call.
    */
  predicate EarlierCovers(urls: seq<Url>) {
    forall j, i :: 0 <= j < i < |urls| && SameFiles(urls[i], urls[j]) && urls[i].isPublic && urls[i].keys != {} ==>
      urls[j].isPublic && urls[i].keys <= urls[j].keys
  }

  /** Every repeat has a first url with its files. */
  lemma {:induction false} RepeatHasAFirst(urls: seq<Url>, i: nat) returns (j: nat)
    requires i < |urls| && Repeats(urls, i)
    ensures j < i && !Repeats(urls, j) && urls[j].download && SameFiles(urls[i], urls[j])
  {
    var m :| 0 <= m < i && urls[m].download && SameFiles(urls[i], urls[m]);
    j := m;
    if Repeats(urls, m) {
      j := RepeatHasAFirst(urls, m);
    }
  }

  /** Where earlier urls cover, what repeats carry a first url of the group carries. */
  lemma CoveredRepeatNothing(urls: seq<Url>)
    requires EarlierCovers(urls)
    ensures RepeatedKeys(urls) <= FirstKeys(urls)
  {
    forall k | k in RepeatedKeys(urls) ensures k in FirstKeys(urls) {
      var i :| 0 <= i < |urls| && Repeats(urls, i) && urls[i].isPublic && k in urls[i].keys;
      var j := RepeatHasAFirst(urls, i);
      assert SameFiles(urls[i], urls[j]);
    }
  }

  /** A url but for its flags. */
  function Plain(u: Url): Url {
    u.Unflagged()
  }

  /** The same urls in the same groups, but for their flags. */
  predicate SameUrls(d: Listing, after: Listing) {
    && |after| == |d|
    && forall g :: 0 <= g < |d| ==>
         && after[g].coverage == d[g].coverage && |after[g].urls| == |d[g].urls|
         && forall i :: 0 <= i < |d[g].urls| ==> Plain(after[g].urls[i]) == Plain(d[g].urls[i])
  }

  lemma {:induction false} RescueMovesFlags(d: Listing, survivors: set<EpisodeKey>, dropped: seq<Pos>)
    ensures SameUrls(d, RescueAll(d, survivors, dropped).listing)
  {
    if dropped != [] {
      RescueMovesFlags(d, survivors, dropped[..|dropped| - 1]);
    }
  }

  lemma SetMovesFlags(d: Listing, names: seq<nat>)
    requires Named(|d|, names)
    ensures SameUrls(d, SetReduced(d, names))
  {
    if FlaggedOf(d, names) != [] {
      var reduced := Reduced(d, names);
      assert SameUrls(d, reduced);
      RescueMovesFlags(reduced, SurvivorKeys(reduced, names), DroppedOf(d, FlaggedOf(d, names), Decide(d, names)));
    }
  }

  lemma {:induction false} SetsMoveFlags(d: Listing, sets: seq<seq<nat>>, n: nat)
    requires n <= |sets| && AllSound(|d|, sets)
    ensures SameUrls(d, SetsReduced(d, sets, n))
  {
    if n > 0 {
      SetsMoveFlags(d, sets, n - 1);
      SetMovesFlags(SetsReduced(d, sets, n - 1), sets[n - 1]);
    }
  }

  lemma EarlierStillCovers(urls: seq<Url>, after: seq<Url>)
    requires EarlierCovers(urls) && |after| == |urls|
    requires forall i :: 0 <= i < |urls| ==> Plain(after[i]) == Plain(urls[i])
    ensures EarlierCovers(after)
  {
    forall j, i | 0 <= j < i < |after| && SameFiles(after[i], after[j]) && after[i].isPublic && after[i].keys != {}
      ensures after[j].isPublic && after[i].keys <= after[j].keys
    {
      assert Plain(after[i]) == Plain(urls[i]) && Plain(after[j]) == Plain(urls[j]);
      assert SameFiles(urls[i], urls[j]);
    }
  }

  /** A flagged public url of the listing carries the episode. */
  predicate Carries(d: Listing, p: Pos, k: EpisodeKey) {
    In(d, p) && At(d, p).Obtains() && k in At(d, p).keys
  }

  /** After the call the episode is still carried within the group's own set. */
  ghost predicate StillCarried(d: Listing, group: nat, k: EpisodeKey)
    requires group < |d|
  {
    exists q :: Carries(ReducedListing(d, false), q, k) && KeyOf(d, q.group) == KeyOf(d, group)
  }

  /** The call keeps every episode some flagged public url carried. */
  ghost predicate CallKeepsCoverage(d: Listing) {
    forall p, k :: Carries(d, p, k) ==> StillCarried(d, p.group, k)
  }

  lemma CoveredSetIsKept(d: Listing, s: nat)
    requires forall g :: 0 <= g < |d| ==> EarlierCovers(d[g].urls)
    requires s < |SetsOf(d, |d|)|
    ensures SurvivorKeys(d, SetsOf(d, |d|)[s]) <= SurvivorKeys(ReducedListing(d, false), SetsOf(d, |d|)[s])
  {
    var sets, phased := SetsOf(d, |d|), SameFilesPhase(d);
    SetsMoveFlags(d, sets, |sets|);
    forall g | g in sets[s] ensures RepeatedKeys(phased[g].urls) <= FirstKeys(phased[g].urls) {
      assert Named(|d|, sets[s]);
      EarlierStillCovers(d[g].urls, phased[g].urls);
      CoveredRepeatNothing(phased[g].urls);
    }
    CallKeepsCoverageIff(d, s);
  }

  /** End to end: where earlier urls cover in every group, every episode that some flagged public url carried before the
    * call is carried after it by a flagged public url of the same set.
    */
  lemma CoveredCallKeepsCoverage(d: Listing)
    requires forall g :: 0 <= g < |d| ==> EarlierCovers(d[g].urls)
    ensures CallKeepsCoverage(d)
  {
    var sets := SetsOf(d, |d|);
    SetsPartition(d, |d|);
    forall p, k | Carries(d, p, k) ensures StillCarried(d, p.group, k) {
      assert Placed(sets, p.group);
      var s :| 0 <= s < |sets| && p.group in sets[s];
      CoveredSetIsKept(d, s);
      ObtainedIsASurvivor(d, sets[s], p, k);
      var q := SurvivorHasAUrl(ReducedListing(d, false), sets[s], k);
      SetsAreKeyClasses(d, s, s, q.group, p.group);
      assert Carries(ReducedListing(d, false), q, k);
    }
  }

  /** Urls of one group with one size multiset are one release: as public, and over the same episodes. */
  predicate SizesIdentify(urls: seq<Url>) {
    forall i, j :: 0 <= i < |urls| && 0 <= j < |urls| && SameFiles(urls[i], urls[j]) ==>
      urls[i].isPublic == urls[j].isPublic && urls[i].keys == urls[j].keys
  }

  /** So the call keeps every episode where sizes identify a release, as the loop takes them to. */
  lemma DedupeKeepsCoverageOfCopies(d: Listing)
    requires forall g :: 0 <= g < |d| ==> SizesIdentify(d[g].urls)
    ensures CallKeepsCoverage(d)
  {
    forall g | 0 <= g < |d| ensures EarlierCovers(d[g].urls) {
    }
    CoveredCallKeepsCoverage(d);
  }

  // And only there.

  function OnlyTwo(urls: seq<Url>, j: nat, i: nat): seq<Url> {
    seq(|urls|, n requires 0 <= n < |urls| =>
      if n == i || n == j then urls[n].(download := true, upgrade := false) else Plain(urls[n]))
  }

  /** The listing with two urls of one group flagged and no other. */
  function OnlyFlagged(d: Listing, g: nat, j: nat, i: nat): Listing {
    seq(|d|, h requires 0 <= h < |d| =>
      d[h].(urls := if h == g then OnlyTwo(d[h].urls, j, i) else UnflaggedUrls(d[h].urls)))
  }

  /** A set whose one flagged group has a public url and no upgrade is left as it is. */
  lemma LoneGroupStays(d: Listing, names: seq<nat>, g: nat)
    requires Named(|d|, names) && (forall h :: h in names && IsFlagged(d[h]) ==> h == g)
    requires g < |d| && IsPublicGroup(d[g]) && !HasUpgrade(d[g])
    ensures SetReduced(d, names) == d
  {
    var flagged := FlaggedOf(d, names);
    WhereHolds(d, names, IsFlagged);
    if flagged != [] {
      assert flagged[0] in flagged;
      DecisionFacts(d, names);
      assert Decide(d, names) == Keep(g);
      assert Reduced(d, names) == d;
      var dropped := DroppedOf(d, flagged, Keep(g));
      assert dropped == [] || dropped[0] in dropped;
      DroppedHolds(d, flagged, Keep(g));
    }
  }

  lemma {:induction false} LoneGroupStaysThrough(d: Listing, sets: seq<seq<nat>>, n: nat, g: nat)
    requires n <= |sets| && AllSound(|d|, sets)
    requires forall h :: 0 <= h < |d| && IsFlagged(d[h]) ==> h == g
    requires g < |d| && IsPublicGroup(d[g]) && !HasUpgrade(d[g])
    ensures SetsReduced(d, sets, n) == d
  {
    if n > 0 {
      LoneGroupStaysThrough(d, sets, n - 1, g);
      LoneGroupStays(d, sets[n - 1], g);
    }
  }

  lemma OnlyFlaggedIs(d: Listing, g: nat, j: nat, i: nat)
    requires g < |d| && j < i < |d[g].urls| && d[g].urls[i].isPublic
    ensures
      var f := OnlyFlagged(d, g, j, i);
      && SameUrls(d, f)
      && IsPublicGroup(f[g]) && !HasUpgrade(f[g])
      && (forall h :: 0 <= h < |f| && IsFlagged(f[h]) ==> h == g)
      && (forall n :: 0 <= n < |f[g].urls| ==> (f[g].urls[n].download <==> n == i || n == j))
  {
    var f := OnlyFlagged(d, g, j, i);
    assert f[g].urls[i] in f[g].urls;
  }

  /** The loop leaves only the earlier of two flagged urls with the same files. */
  lemma OnlyTheEarlierStays(f: Listing, g: nat, j: nat, i: nat, q: Pos)
    requires g < |f| && j < i < |f[g].urls| && SameFiles(f[g].urls[i], f[g].urls[j])
    requires forall h :: 0 <= h < |f| && IsFlagged(f[h]) ==> h == g
    requires forall n :: 0 <= n < |f[g].urls| ==> (f[g].urls[n].download <==> n == i || n == j)
    ensures Grabs(Deduped(f), q) ==> q == Pos(g, j) && At(Deduped(f), q) == f[g].urls[j]
  {
    assert Repeats(f[g].urls, i);
    if Grabs(Deduped(f), q) {
      assert f[q.group].urls[q.index] in f[q.group].urls;
    }
  }

  /** Flag a public url and an earlier one with its files that does not cover it, and the call loses the episode. */
  lemma UncoveredUrlIsLost(d: Listing, g: nat, j: nat, i: nat, k: EpisodeKey)
    requires g < |d| && j < i < |d[g].urls| && SameFiles(d[g].urls[i], d[g].urls[j])
    requires d[g].urls[i].isPublic && k in d[g].urls[i].keys
    requires !(d[g].urls[j].isPublic && k in d[g].urls[j].keys)
    ensures
      var f := OnlyFlagged(d, g, j, i);
      SameUrls(d, f) && Carries(f, Pos(g, i), k) && !StillCarried(f, g, k)
  {
    var f := OnlyFlagged(d, g, j, i);
    OnlyFlaggedIs(d, g, j, i);
    LoneGroupStaysThrough(f, SetsOf(f, |f|), |SetsOf(f, |f|)|, g);
    forall q ensures !Carries(ReducedListing(f, false), q, k) {
      OnlyTheEarlierStays(f, g, j, i, q);
    }
  }

  /** The exact condition: whichever urls of a listing are flagged, the call keeps their coverage, if and only if
    * earlier urls cover in every group.
    */
  lemma CallKeepsCoverageWhateverFlagsIff(d: Listing)
    ensures (forall f: Listing :: SameUrls(d, f) ==> CallKeepsCoverage(f)) <==>
            forall g :: 0 <= g < |d| ==> EarlierCovers(d[g].urls)
  {
    if forall g :: 0 <= g < |d| ==> EarlierCovers(d[g].urls) {
      forall f: Listing | SameUrls(d, f) ensures CallKeepsCoverage(f) {
        forall g | 0 <= g < |f| ensures EarlierCovers(f[g].urls) {
          EarlierStillCovers(d[g].urls, f[g].urls);
        }
        CoveredCallKeepsCoverage(f);
      }
    }
    forall g | 0 <= g < |d| && !EarlierCovers(d[g].urls)
      ensures exists f: Listing :: SameUrls(d, f) && !CallKeepsCoverage(f)
    {
      var urls := d[g].urls;
      var j, i :| 0 <= j < i < |urls| && SameFiles(urls[i], urls[j]) && urls[i].isPublic && urls[i].keys != {}
        && !(urls[j].isPublic && urls[i].keys <= urls[j].keys);
      var k :| k in urls[i].keys && !(urls[j].isPublic && k in urls[j].keys);
      UncoveredUrlIsLost(d, g, j, i, k);
      assert !CallKeepsCoverage(OnlyFlagged(d, g, j, i));
    }
  }

  // The losing input.

  const EPISODE := EpisodeKey(Some(1), Some(1))

  /** One group lists the same release on a private tracker and then on a public one, both flagged. */
  const MIXED_GROUP :=
    Group(Some({EPISODE}),
          [Url(false, false, {EPISODE}, [700], true, false), Url(true, false, {EPISODE}, [700], true, false)])

  /** The mixed group is its set's degraded keeper. */
  lemma MixedGroupIsKept()
    ensures FlaggedOf([MIXED_GROUP], [0]) == [0] && Decide([MIXED_GROUP], [0]) == Keep(0)
  {
    var d, names: seq<nat> := [MIXED_GROUP], [0];
    assert MIXED_GROUP.urls[0] in MIXED_GROUP.urls && MIXED_GROUP.urls[1] in MIXED_GROUP.urls;
    assert names[..0] == [] && Where(d, names, IsFlagged) == [0] && Where(d, names, IsPublicGroup) == [0];
    assert FlaggedOf(d, names) == names && !FlaggedAllAddable(d[0]) && !HasUpgrade(d[0]);
  }

  lemma KeptGroupStays(d: Listing, names: seq<nat>)
    requires |d| == 1 && names == [0] && FlaggedOf(d, names) == [0] && Decide(d, names) == Keep(0)
    ensures SetReduced(d, names) == d
  {
    assert Reduced(d, names) == d;
    assert names[..0] == [] && DroppedOf(d, names, Keep(0)) == [];
  }

  /** The phase leaves it alone. */
  lemma PhaseKeepsMixedGroup()
    ensures SetsOf([MIXED_GROUP], 1) == [[0]] && SameFilesPhase([MIXED_GROUP]) == [MIXED_GROUP]
  {
    var d, names: seq<nat> := [MIXED_GROUP], [0];
    assert SetsOf(d, 0) == [] && SetsOf(d, 1) == [[0]];
    MixedGroupIsKept();
    KeptGroupStays(d, names);
    assert SetsReduced(d, [[0]], 0) == d && SetsReduced(d, [[0]], 1) == d;
  }

  /** So the loop keeps the private copy, which the add refuses, and the call loses the episode. */
  lemma DedupeCanLoseAnEpisode()
    ensures
      var d := [MIXED_GROUP];
      && In(d, Pos(0, 1)) && At(d, Pos(0, 1)).Obtains() && EPISODE in At(d, Pos(0, 1)).keys
      && forall q :: In(ReducedListing(d, false), q) ==> !At(ReducedListing(d, false), q).Obtains()
  {
    PhaseKeepsMixedGroup();
    var urls := MIXED_GROUP.urls;
    assert SameFiles(urls[1], urls[0]) && Repeats(urls, 1);
    assert Deduped([MIXED_GROUP])[0].urls == DedupedUrls(urls);
  }
}
