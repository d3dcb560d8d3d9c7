/** What one same-files set's reduction decides, told from the urls of its groups alone: the pick, the urls it leaves
  * flagged, and what it reports.
  */
module DecisionLaws {
  import opened Wrappers
  import opened ReductionSpec

  // The urls of a group, read directly.

  predicate HasGrab(g: Group) {
    exists u :: u in g.urls && u.download
  }

  predicate NothingPublic(g: Group) {
    forall u :: u in g.urls ==> !u.isPublic
  }

  /** A flagged group with a public url. */
  predicate MayStay(g: Group) {
    (exists u :: u in g.urls && u.download) && exists u :: u in g.urls && u.isPublic
  }

  /** Every url it has flagged will be obtained. */
  predicate StaysWhole(g: Group) {
    MayStay(g) && forall u :: u in g.urls && u.download ==> u.isPublic
  }

  /** A group that may stand in for a private one: none of its urls flagged, none a fallback's, one public. */
  predicate MayStandIn(g: Group) {
    (forall u :: u in g.urls ==> !u.download && !u.isFallback) && exists u :: u in g.urls && u.isPublic
  }

  /** One that may stand in with all its urls. */
  predicate MayStandInWhole(g: Group) {
    MayStandIn(g) && forall u :: u in g.urls ==> u.isPublic
  }

  /** A flagged group of the set has an upgrade: a copy is held, and held wrong. */
  predicate HeldWrong(d: Listing, names: seq<nat>)
    requires Named(|d|, names)
  {
    exists g, u, v :: g in names && u in d[g].urls && v in d[g].urls && u.download && v.upgrade
  }

  /** A fallback's url is in the set. */
  predicate FallbackRides(d: Listing, names: seq<nat>)
    requires Named(|d|, names)
  {
    exists g, u :: g in names && u in d[g].urls && u.isFallback
  }

  // Firsts.

  /** `g` is the first of the names whose group satisfies the test. */
  ghost predicate IsFirst(d: Listing, names: seq<nat>, test: Group -> bool, g: nat)
    requires Named(|d|, names)
  {
    exists i :: 0 <= i < |names| && names[i] == g && test(d[g]) && forall j :: 0 <= j < i ==> !test(d[names[j]])
  }

  ghost predicate AnyGroup(d: Listing, names: seq<nat>, test: Group -> bool)
    requires Named(|d|, names)
  {
    exists g :: g in names && test(d[g])
  }

  lemma {:induction false} WhereBoth(d: Listing, names: seq<nat>, one: Group -> bool, two: Group -> bool,
                                     both: Group -> bool)
    requires Named(|d|, names) && forall g :: both(g) <==> one(g) && two(g)
    ensures Where(d, Where(d, names, one), two) == Where(d, names, both)
  {
    if names != [] {
      var n := |names| - 1;
      WhereBoth(d, names[..n], one, two, both);
      var before := Where(d, names[..n], one);
      assert (before + [names[n]])[..|before|] == before;
    }
  }

  lemma {:induction false} WhereSame(d: Listing, names: seq<nat>, one: Group -> bool, two: Group -> bool)
    requires Named(|d|, names) && forall g :: one(g) <==> two(g)
    ensures Where(d, names, one) == Where(d, names, two)
  {
    if names != [] {
      WhereSame(d, names[..|names| - 1], one, two);
    }
  }

  /** What is found first. */
  lemma {:induction false} FirstIs(d: Listing, names: seq<nat>, test: Group -> bool)
    requires Named(|d|, names)
    ensures Where(d, names, test) == [] <==> !AnyGroup(d, names, test)
    ensures Where(d, names, test) != [] ==> IsFirst(d, names, test, Where(d, names, test)[0])
  {
    WhereHolds(d, names, test);
    if names != [] {
      var n := |names| - 1;
      var before := Where(d, names[..n], test);
      FirstIs(d, names[..n], test);
      if before != [] {
        var i :| 0 <= i < n && names[..n][i] == before[0] && forall j :: 0 <= j < i ==> !test(d[names[..n][j]]);
        assert forall j :: 0 <= j < i ==> names[..n][j] == names[j];
        assert names[i] == before[0];
      } else if test(d[names[n]]) {
        assert forall j :: 0 <= j < n ==> names[j] in names[..n];
      }
      assert Where(d, names, test) != [] ==> Where(d, names, test)[0] in Where(d, names, test);
    }
  }

  /** The predicates the reduction reads, in the fields of the urls. */
  lemma TestsAre(g: Group)
    ensures IsFlagged(g) && IsPublicGroup(g) <==> MayStay(g)
    ensures IsFlagged(g) && IsPublicGroup(g) && FlaggedAllAddable(g) <==> StaysWhole(g)
    ensures Promotable(g) <==> MayStandIn(g)
    ensures Promotable(g) && AllPublic(g) <==> MayStandInWhole(g)
  {
  }

  lemma PromotedIs(d: Listing, names: seq<nat>)
    requires Named(|d|, names)
    ensures Promoted(d, names) ==
      if Where(d, names, MayStandInWhole) != [] then Some(Where(d, names, MayStandInWhole)[0])
      else if Where(d, names, MayStandIn) != [] then Some(Where(d, names, MayStandIn)[0])
      else None
  {
    forall g ensures MayStandInWhole(g) <==> Promotable(g) && AllPublic(g) {
      TestsAre(g);
    }
    forall g ensures MayStandIn(g) <==> Promotable(g) {
      TestsAre(g);
    }
    WhereBoth(d, names, Promotable, AllPublic, MayStandInWhole);
    WhereSame(d, names, Promotable, MayStandIn);
  }

  lemma KeepersAre(d: Listing, names: seq<nat>)
    requires Named(|d|, names)
    ensures Where(d, FlaggedOf(d, names), IsPublicGroup) == Where(d, names, MayStay)
    ensures Where(d, Where(d, names, MayStay), FlaggedAllAddable) == Where(d, names, StaysWhole)
  {
    forall g
      ensures MayStay(g) <==> IsFlagged(g) && IsPublicGroup(g)
      ensures StaysWhole(g) <==> MayStay(g) && FlaggedAllAddable(g)
    {
      TestsAre(g);
    }
    WhereBoth(d, names, IsFlagged, IsPublicGroup, MayStay);
    WhereBoth(d, names, MayStay, FlaggedAllAddable, StaysWhole);
  }

  lemma PendingIs(d: Listing, names: seq<nat>)
    requires Named(|d|, names)
    ensures UpgradePending(d, names) <==> HeldWrong(d, names)
  {
    WhereHolds(d, names, IsFlagged);
    if UpgradePending(d, names) {
      var g :| g in FlaggedOf(d, names) && HasUpgrade(d[g]);
      var u :| u in d[g].urls && u.download;
      var v :| v in d[g].urls && v.upgrade;
      assert g in names;
    }
    if HeldWrong(d, names) {
      var g, u, v :| g in names && u in d[g].urls && v in d[g].urls && u.download && v.upgrade;
      assert g in FlaggedOf(d, names) && HasUpgrade(d[g]);
    }
  }

  /** The whole decision, in the fields of the urls. A group that stays whole is kept, the first there is. Without one,
    * a set held wrong takes the first group that stands in, a whole one before any other. Failing both, the first
    * flagged group with a public url is kept, and without one everything is dropped.
    */
  lemma DecisionIs(d: Listing, names: seq<nat>)
    requires Named(|d|, names)
    ensures
      var standIn := HeldWrong(d, names) && AnyGroup(d, names, MayStandIn);
      match Decide(d, names)
      case Keep(g) =>
        || IsFirst(d, names, StaysWhole, g)
        || (!AnyGroup(d, names, StaysWhole) && !standIn && IsFirst(d, names, MayStay, g))
      case Promote(g) =>
        && standIn && !AnyGroup(d, names, StaysWhole)
        && (|| IsFirst(d, names, MayStandInWhole, g)
            || (!AnyGroup(d, names, MayStandInWhole) && IsFirst(d, names, MayStandIn, g)))
      case DropAll =>
        !AnyGroup(d, names, MayStay) && !standIn
  {
    PromotedIs(d, names);
    KeepersAre(d, names);
    PendingIs(d, names);
    FirstIs(d, names, StaysWhole);
    FirstIs(d, names, MayStay);
    FirstIs(d, names, MayStandInWhole);
    FirstIs(d, names, MayStandIn);
    assert forall g :: StaysWhole(g) ==> MayStay(g);
    assert forall g :: MayStandInWhole(g) ==> MayStandIn(g);
  }

  // What is reported.

  /** The flagged groups of the set, in order. */
  function FlaggedGroups(d: Listing, names: seq<nat>): seq<nat>
    requires Named(|d|, names)
  {
    Where(d, names, HasGrab)
  }

  /** Those of them with no public url. */
  function PrivateOnes(d: Listing, names: seq<nat>): seq<nat>
    requires Named(|d|, names)
  {
    Where(d, FlaggedGroups(d, names), NothingPublic)
  }

  /** Only private groups are flagged and nothing stands in: no group that may where a copy is held wrong, no fallback
    * where none is.
    */
  ghost predicate HeldBack(d: Listing, names: seq<nat>)
    requires Named(|d|, names)
  {
    && AnyGroup(d, names, HasGrab) && !AnyGroup(d, names, MayStay)
    && if HeldWrong(d, names) then !AnyGroup(d, names, MayStandIn) else !FallbackRides(d, names)
  }

  /** Only private groups are flagged, nothing is held wrong and a fallback rides: its files are owned. */
  ghost predicate Covered(d: Listing, names: seq<nat>)
    requires Named(|d|, names)
  {
    && AnyGroup(d, names, HasGrab) && !AnyGroup(d, names, MayStay)
    && !HeldWrong(d, names) && FallbackRides(d, names)
  }

  /** A fallback group of which nothing is flagged. */
  predicate OwnedFallback(g: Group) {
    (exists u :: u in g.urls && u.isFallback) && forall u :: u in g.urls ==> !u.download
  }

  /** A copy is held wrong, no group stays whole or may stand in for it, and a fallback rides that must not replace it:
    * any where nothing stays, an unflagged one where a mixed group does.
    */
  ghost predicate HoldsStale(d: Listing, names: seq<nat>)
    requires Named(|d|, names)
  {
    && HeldWrong(d, names) && !AnyGroup(d, names, StaysWhole) && !AnyGroup(d, names, MayStandIn)
    && if AnyGroup(d, names, MayStay) then AnyGroup(d, names, OwnedFallback) else FallbackRides(d, names)
  }

  lemma FlaggedAre(d: Listing, names: seq<nat>)
    requires Named(|d|, names)
    ensures FlaggedOf(d, names) == FlaggedGroups(d, names)
    ensures PrivateGroups(d, FlaggedOf(d, names)) == PrivateOnes(d, names)
    ensures FlaggedOf(d, names) != [] <==> AnyGroup(d, names, HasGrab)
  {
    WhereSame(d, names, IsFlagged, HasGrab);
    WhereSame(d, FlaggedOf(d, names), g => !IsPublicGroup(g), NothingPublic);
    FirstIs(d, names, HasGrab);
  }

  lemma RidesAre(d: Listing, names: seq<nat>)
    requires Named(|d|, names)
    ensures FallbackRides(d, names) <==> exists g :: g in names && IsFallbackGroup(d[g])
    ensures RidesUnflagged(d, names) <==> AnyGroup(d, names, OwnedFallback)
  {
    if FallbackRides(d, names) {
      var g, u :| g in names && u in d[g].urls && u.isFallback;
      assert IsFallbackGroup(d[g]);
    }
    forall g ensures OwnedFallback(g) <==> !IsFlagged(g) && IsFallbackGroup(g) {
    }
  }

  /** Which decision it is, and whether a kept group stays whole. */
  lemma KindIs(d: Listing, names: seq<nat>)
    requires Named(|d|, names)
    ensures Decide(d, names).DropAll? <==>
      !AnyGroup(d, names, MayStay) && !(HeldWrong(d, names) && AnyGroup(d, names, MayStandIn))
    ensures Decide(d, names).Keep? ==>
      var k := Decide(d, names).group;
      && k in names && MayStay(d[k])
      && (FlaggedAllAddable(d[k]) <==> AnyGroup(d, names, StaysWhole))
      && (FlaggedAllAddable(d[k]) || !(HeldWrong(d, names) && AnyGroup(d, names, MayStandIn)))
    ensures Decide(d, names).Promote? ==>
      HeldWrong(d, names) && AnyGroup(d, names, MayStandIn) && !AnyGroup(d, names, StaysWhole)
  {
    DecisionIs(d, names);
    if Decide(d, names).Keep? {
      TestsAre(d[Decide(d, names).group]);
    }
  }

  lemma HeldBackIs(d: Listing, names: seq<nat>)
    requires Named(|d|, names) && FlaggedOf(d, names) != []
    ensures HeldBack(d, names) <==> Decide(d, names).DropAll? && (HeldWrong(d, names) || !FallbackRides(d, names))
    ensures Covered(d, names) <==> Decide(d, names).DropAll? && !HeldWrong(d, names) && FallbackRides(d, names)
  {
    KindIs(d, names);
    FlaggedAre(d, names);
  }

  lemma HoldsStaleIs(d: Listing, names: seq<nat>)
    requires Named(|d|, names)
    ensures HoldsStale(d, names) <==>
      HeldWrong(d, names)
      && (|| (Decide(d, names).DropAll? && FallbackRides(d, names))
          || (Decide(d, names).Keep? && !FlaggedAllAddable(d[Decide(d, names).group]) && RidesUnflagged(d, names)))
  {
    KindIs(d, names);
    RidesAre(d, names);
    if AnyGroup(d, names, StaysWhole) {
      var g :| g in names && StaysWhole(d[g]);
      assert MayStay(d[g]);
    }
  }

  /** The outcomes a turn reports, told from its urls. */
  lemma TurnReports(d: Listing, names: seq<nat>, skips: Skips)
    requires Named(|d|, names) && AnyGroup(d, names, HasGrab)
    ensures
      var told := TurnReported(d, names, skips);
      && (told.skipped <==> skips.skipped || HeldBack(d, names))
      && (told.staleHeld <==> skips.staleHeld || HoldsStale(d, names))
      && (told.fallbackCovered <==> skips.fallbackCovered || Covered(d, names))
      && told.groups == skips.groups + if HeldBack(d, names) then FlaggedGroups(d, names) else []
  {
    FlaggedAre(d, names);
    HeldBackIs(d, names);
    HoldsStaleIs(d, names);
    PendingIs(d, names);
    RidesAre(d, names);
    KindIs(d, names);
    ReportedIs(d, names, Decide(d, names), skips);
  }

  /** A turn's report by its decision. */
  lemma ReportedIs(d: Listing, names: seq<nat>, dec: Decision, skips: Skips)
    requires Named(|d|, names) && (dec.Keep? ==> dec.group < |d|)
    ensures
      var told := ReportedFor(d, names, dec, skips);
      var pending, rides := UpgradePending(d, names), exists g :: g in names && IsFallbackGroup(d[g]);
      && told.skipped == (skips.skipped || (dec.DropAll? && (pending || !rides)))
      && told.fallbackCovered == (skips.fallbackCovered || (dec.DropAll? && !pending && rides))
      && told.staleHeld ==
           (|| skips.staleHeld || (dec.DropAll? && pending && rides)
            || (dec.Keep? && !FlaggedAllAddable(d[dec.group]) && pending && RidesUnflagged(d, names)))
      && told.groups == skips.groups + if dec.DropAll? && (pending || !rides) then FlaggedOf(d, names) else []
  {
  }

  /** The notice a turn adds, if any. */
  ghost function NoticeOf(d: Listing, names: seq<nat>): seq<Notice>
    requires Named(|d|, names)
  {
    var flagged := FlaggedGroups(d, names);
    if HeldBack(d, names) then
      [Notice(flagged, if FallbackRides(d, names) then StaleHeld else NoPublic, true)]
    else if Covered(d, names) then
      [Notice(flagged, FallbackOwned, false)]
    else
      match Decide(d, names)
      case Promote(g) => [Notice(flagged, StandsIn(g, AnyGroup(d, names, MayStay)), false)]
      case Keep(k) =>
        if k < |d| && PrivateOnes(d, names) != [] && exists u :: u in d[k].urls && u.isFallback then
          [Notice(PrivateOnes(d, names), FellBack(k), false)]
        else
          []
      case DropAll => []
  }

  lemma DropNotes(d: Listing, names: seq<nat>, skips: Skips)
    requires Named(|d|, names) && Decide(d, names).DropAll? && AnyGroup(d, names, HasGrab)
    ensures Reported(d, names, skips).notices == skips.notices + NoticeOf(d, names)
  {
    FlaggedAre(d, names);
    HeldBackIs(d, names);
    PendingIs(d, names);
    RidesAre(d, names);
  }

  lemma PromoteNotes(d: Listing, names: seq<nat>, skips: Skips)
    requires Named(|d|, names) && Decide(d, names).Promote? && AnyGroup(d, names, HasGrab)
    ensures Reported(d, names, skips).notices == skips.notices + NoticeOf(d, names)
  {
    FlaggedAre(d, names);
    HeldBackIs(d, names);
    KeepersAre(d, names);
    FirstIs(d, names, MayStay);
  }

  lemma KeepNotes(d: Listing, names: seq<nat>, skips: Skips)
    requires Named(|d|, names) && Decide(d, names).Keep? && AnyGroup(d, names, HasGrab)
    ensures Reported(d, names, skips).notices == skips.notices + NoticeOf(d, names)
  {
    FlaggedAre(d, names);
    HeldBackIs(d, names);
    KindIs(d, names);
  }

  /** What a turn says: why it holds a set back or soft-skips it, what stands in, or that a fallback does. */
  lemma TurnNotes(d: Listing, names: seq<nat>, skips: Skips)
    requires Named(|d|, names) && AnyGroup(d, names, HasGrab)
    ensures TurnReported(d, names, skips).notices == skips.notices + NoticeOf(d, names)
  {
    FlaggedAre(d, names);
    match Decide(d, names)
    case DropAll => DropNotes(d, names, skips);
    case Promote(_) => PromoteNotes(d, names, skips);
    case Keep(_) => KeepNotes(d, names, skips);
  }

  /** A set with nothing flagged reports nothing. */
  lemma QuietTurn(d: Listing, names: seq<nat>, skips: Skips)
    requires Named(|d|, names) && !AnyGroup(d, names, HasGrab)
    ensures TurnReported(d, names, skips) == skips && SetReduced(d, names) == d
  {
    FlaggedAre(d, names);
  }
}
