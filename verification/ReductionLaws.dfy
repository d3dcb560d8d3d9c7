/** What the same-files reduction promises: nothing publicly obtainable is lost, one group of a set is kept, and a
  * grab is only ever added in place of a stale copy.
  */
module ReductionLaws {
  import opened ReductionSpec
  import opened DecisionLaws

  lemma PromotedIsPromotable(d: Listing, names: seq<nat>)
    requires Named(|d|, names)
    ensures Promoted(d, names).Some? ==> Promoted(d, names).value in names && Promotable(d[Promoted(d, names).value])
  {
    var candidates := Where(d, names, Promotable);
    WhereHolds(d, names, Promotable);
    WhereHolds(d, candidates, AllPublic);
    if Promoted(d, names).Some? {
      var p := Promoted(d, names).value;
      assert candidates != [] && (p == candidates[0] || p in Where(d, candidates, AllPublic));
    }
  }

  /** What a decision picks. */
  lemma DecisionFacts(d: Listing, names: seq<nat>)
    requires Named(|d|, names) && FlaggedOf(d, names) != []
    ensures
      match Decide(d, names)
      case Promote(g) =>
        && g in names && Promotable(d[g]) && UpgradePending(d, names)
        && (forall u :: u in d[g].urls ==> !u.download && !u.isFallback) && (exists u :: u in d[g].urls && u.isPublic)
      case Keep(g) => g in FlaggedOf(d, names) && IsPublicGroup(d[g])
      case DropAll => forall g :: g in FlaggedOf(d, names) ==> forall u :: u in d[g].urls ==> !u.isPublic
    ensures
      (exists g :: g in FlaggedOf(d, names) && IsPublicGroup(d[g]) && FlaggedAllAddable(d[g])) ==>
        Decide(d, names).Keep? && FlaggedAllAddable(d[Decide(d, names).group])
  {
    var flagged := FlaggedOf(d, names);
    var publicFlagged := Where(d, flagged, IsPublicGroup);
    var addable := Where(d, publicFlagged, FlaggedAllAddable);
    PromotedIsPromotable(d, names);
    WhereHolds(d, names, IsFlagged);
    WhereHolds(d, flagged, IsPublicGroup);
    WhereHolds(d, publicFlagged, FlaggedAllAddable);
    if publicFlagged != [] {
      assert publicFlagged[0] in publicFlagged;
      if addable != [] {
        assert addable[0] in addable;
      }
    }
  }

  lemma UnflaggedHasNone(g: Group)
    ensures !IsFlagged(UnflaggedGroup(g))
  {
  }

  /** Only the decision's pick can stay flagged. */
  lemma StayerIsPicked(d: Listing, names: seq<nat>, g: nat)
    requires Named(|d|, names) && g in names && IsFlagged(Reduced(d, names)[g])
    ensures Decide(d, names) == Keep(g) || Decide(d, names) == Promote(g)
  {
    UnflaggedHasNone(d[g]);
  }

  /** Before the rescue, at most one group of the set stays flagged. */
  lemma AtMostOneStays(d: Listing, names: seq<nat>, g: nat, h: nat)
    requires Named(|d|, names) && FlaggedOf(d, names) != [] && g in names && h in names
    requires IsFlagged(Reduced(d, names)[g]) && IsFlagged(Reduced(d, names)[h])
    ensures g == h
  {
    StayerIsPicked(d, names, g);
    StayerIsPicked(d, names, h);
  }

  /** A held set keeps nothing: when every flagged group is private and nothing may stand in, none stays. */
  lemma HeldSetKeepsNothing(d: Listing, names: seq<nat>, g: nat)
    requires Named(|d|, names) && FlaggedOf(d, names) != [] && Decide(d, names).DropAll? && g in names
    ensures !IsFlagged(Reduced(d, names)[g])
  {
    UnflaggedHasNone(d[g]);
  }

  lemma FlagAtShape(d: Listing, p: Pos)
    requires In(d, p)
    ensures forall q :: In(d, q) ==>
      In(FlagAt(d, p), q) && At(FlagAt(d, p), q) == if q == p then At(d, p).Flagged() else At(d, q)
    ensures forall g :: 0 <= g < |d| && g != p.group ==> FlagAt(d, p)[g] == d[g]
  {
  }

  lemma KeysAfterFlag(d: Listing, p: Pos, g: nat)
    requires In(d, p) && At(d, p).isPublic && g < |d|
    ensures KeysOfUrls(FlagAt(d, p)[g].urls) ==
            if g == p.group then KeysOfUrls(d[g].urls) + At(d, p).keys else KeysOfUrls(d[g].urls)
  {
    if g == p.group {
      var before, after := d[g].urls, FlagAt(d, p)[g].urls;
      assert after[p.index] in after;
      forall k | k in KeysOfUrls(before) ensures k in KeysOfUrls(after) {
        var i :| 0 <= i < |before| && before[i].Obtains() && k in before[i].keys;
        assert after[i] in after && after[i].Obtains();
      }
      forall k | k in KeysOfUrls(after) ensures k in KeysOfUrls(before) + At(d, p).keys {
        var i :| 0 <= i < |after| && after[i].Obtains() && k in after[i].keys;
        assert i != p.index ==> before[i] in before;
      }
    }
  }

  /** Flagging a public url of the set adds exactly its episodes to the survivors. */
  lemma SurvivorsAfterFlag(d: Listing, names: seq<nat>, p: Pos)
    requires Named(|d|, names) && In(d, p) && At(d, p).isPublic && p.group in names
    ensures SurvivorKeys(FlagAt(d, p), names) == SurvivorKeys(d, names) + At(d, p).keys
  {
    forall g | g in names
      ensures KeysOfUrls(FlagAt(d, p)[g].urls) ==
              if g == p.group then KeysOfUrls(d[g].urls) + At(d, p).keys else KeysOfUrls(d[g].urls)
    {
      KeysAfterFlag(d, p, g);
    }
  }

  /** The positions are urls of the set. */
  predicate AllIn(d: Listing, names: seq<nat>, dropped: seq<Pos>) {
    forall i :: 0 <= i < |dropped| ==> In(d, dropped[i]) && dropped[i].group in names
  }

  /** A rescue leaves a url as it was, or flags a dropped public url of the set. */
  predicate RescuedAt(d: Listing, names: seq<nat>, dropped: seq<Pos>, e: Listing, q: Pos)
    requires In(d, q)
  {
    && In(e, q)
    && (|| At(e, q) == At(d, q)
        || (q in dropped && q.group in names && At(d, q).isPublic && At(e, q) == At(d, q).Flagged()))
  }

  /** What a rescue of `dropped` keeps: it touches only dropped public urls, tracks the survivors exactly and
    * leaves no dropped public url uncovered.
    */
  ghost predicate RescueHolds(d: Listing, names: seq<nat>, dropped: seq<Pos>, r: Rescue)
    requires Named(|d|, names)
  {
    && |r.listing| == |d|
    && r.survivors == SurvivorKeys(r.listing, names)
    && SurvivorKeys(d, names) <= r.survivors
    && (forall q :: In(d, q) ==> RescuedAt(d, names, dropped, r.listing, q))
    && (forall q :: q in dropped && In(d, q) && At(d, q).isPublic ==> At(d, q).keys <= r.survivors)
    && (forall g :: 0 <= g < |d| && g !in names ==> r.listing[g] == d[g])
  }

  lemma RescueStepHolds(d: Listing, names: seq<nat>, dropped: seq<Pos>, r: Rescue, p: Pos)
    requires Named(|d|, names) && RescueHolds(d, names, dropped, r)
    requires In(d, p) && p.group in names && In(r.listing, p) && Rescued(r.listing, r.survivors, p)
    ensures RescueHolds(d, names, dropped + [p],
                        Rescue(FlagAt(r.listing, p), r.survivors + At(r.listing, p).keys))
  {
    var e := FlagAt(r.listing, p);
    FlagAtShape(r.listing, p);
    SurvivorsAfterFlag(r.listing, names, p);
    assert RescuedAt(d, names, dropped, r.listing, p);
    forall q | In(d, q) ensures RescuedAt(d, names, dropped + [p], e, q) {
      assert RescuedAt(d, names, dropped, r.listing, q);
      assert q == p ==> q in dropped + [p];
    }
    assert SurvivorKeys(e, names) == r.survivors + At(r.listing, p).keys;
    assert At(r.listing, p).keys == At(d, p).keys;
    forall q | q in dropped + [p] && In(d, q) && At(d, q).isPublic
      ensures At(d, q).keys <= r.survivors + At(r.listing, p).keys
    {
      assert q == p || q in dropped;
    }
    forall g | 0 <= g < |d| && g !in names ensures e[g] == d[g] {
      assert r.listing[g] == d[g];
    }
  }

  lemma {:induction false} RescueFacts(d: Listing, names: seq<nat>, dropped: seq<Pos>)
    requires Named(|d|, names)
    requires AllIn(d, names, dropped)
    ensures RescueHolds(d, names, dropped, RescueAll(d, SurvivorKeys(d, names), dropped))
  {
    if dropped != [] {
      var n := |dropped| - 1;
      RescueFacts(d, names, dropped[..n]);
      var before := RescueAll(d, SurvivorKeys(d, names), dropped[..n]);
      var p := dropped[n];
      assert dropped == dropped[..n] + [p];
      assert In(d, p) && In(before.listing, p);
      if Rescued(before.listing, before.survivors, p) {
        RescueStepHolds(d, names, dropped[..n], before, p);
      }
    }
  }

  /** Each rescued url adds an episode no survivor carried when its turn came. */
  lemma RescueAddsAKey(d: Listing, names: seq<nat>, dropped: seq<Pos>, p: Pos)
    requires Named(|d|, names) && In(d, p) && p.group in names
    requires AllIn(d, names, dropped)
    requires
      var r := RescueAll(d, SurvivorKeys(d, names), dropped);
      In(r.listing, p) && Rescued(r.listing, r.survivors, p)
    ensures
      var r := RescueAll(d, SurvivorKeys(d, names), dropped);
      var next := RescueAll(d, SurvivorKeys(d, names), dropped + [p]);
      && At(next.listing, p).Obtains()
      && exists k :: k in At(next.listing, p).keys && k !in SurvivorKeys(r.listing, names)
  {
    RescueFacts(d, names, dropped);
    assert (dropped + [p])[..|dropped|] == dropped;
  }

  /** The dropped positions are urls of the set. */
  lemma DroppedAreIn(d: Listing, names: seq<nat>)
    requires Named(|d|, names)
    ensures AllIn(Reduced(d, names), names, DroppedOf(d, FlaggedOf(d, names), Decide(d, names)))
  {
    var dropped := DroppedOf(d, FlaggedOf(d, names), Decide(d, names));
    DroppedHolds(d, FlaggedOf(d, names), Decide(d, names));
    WhereHolds(d, names, IsFlagged);
    forall i | 0 <= i < |dropped| ensures In(Reduced(d, names), dropped[i]) && dropped[i].group in names {
      assert dropped[i] in dropped;
      ReducedAt(d, names, dropped[i]);
    }
  }

  /** A url the reduction stops obtaining was dropped: it waits for the rescue. */
  lemma LostUrlIsDropped(d: Listing, names: seq<nat>, p: Pos)
    requires Named(|d|, names) && FlaggedOf(d, names) != []
    requires In(d, p) && p.group in names && At(d, p).Obtains()
    ensures At(Reduced(d, names), p) == At(d, p) ||
            p in DroppedOf(d, FlaggedOf(d, names), Decide(d, names))
  {
    assert At(d, p) in d[p.group].urls;
    assert IsFlagged(d[p.group]);
    DroppedHolds(d, FlaggedOf(d, names), Decide(d, names));
    WhereHolds(d, names, IsFlagged);
    DecisionFacts(d, names);
  }

  lemma ObtainedIsASurvivor(d: Listing, names: seq<nat>, p: Pos, k: EpisodeKey)
    requires Named(|d|, names) && In(d, p) && p.group in names && At(d, p).Obtains() && k in At(d, p).keys
    ensures k in SurvivorKeys(d, names)
  {
    assert At(d, p) in d[p.group].urls;
    assert k in KeysOfUrls(d[p.group].urls);
  }

  /** Whatever the reduced listing still carries, and whatever was dropped from it, the rescue covers. */
  lemma RescueCovers(d: Listing, names: seq<nat>, p: Pos)
    requires Named(|d|, names) && FlaggedOf(d, names) != [] && In(Reduced(d, names), p)
    ensures SurvivorKeys(Reduced(d, names), names) <= SurvivorKeys(SetReduced(d, names), names)
    ensures
      p in DroppedOf(d, FlaggedOf(d, names), Decide(d, names)) && At(Reduced(d, names), p).isPublic ==>
        At(Reduced(d, names), p).keys <= SurvivorKeys(SetReduced(d, names), names)
  {
    var reduced, dropped := Reduced(d, names), DroppedOf(d, FlaggedOf(d, names), Decide(d, names));
    DroppedAreIn(d, names);
    RescueFacts(reduced, names, dropped);
    var r := RescueAll(reduced, SurvivorKeys(reduced, names), dropped);
    assert SetReduced(d, names) == r.listing;
    assert SurvivorKeys(r.listing, names) == r.survivors;
  }

  /** Coverage of one set: an episode some flagged public url carried is still carried by one. */
  lemma SetKeepsCoverage(d: Listing, names: seq<nat>, p: Pos, k: EpisodeKey)
    requires Named(|d|, names) && In(d, p) && p.group in names && At(d, p).Obtains() && k in At(d, p).keys
    ensures k in SurvivorKeys(SetReduced(d, names), names)
  {
    if FlaggedOf(d, names) == [] {
      ObtainedIsASurvivor(d, names, p, k);
    } else {
      var reduced := Reduced(d, names);
      assert In(reduced, p);
      RescueCovers(d, names, p);
      LostUrlIsDropped(d, names, p);
      ReducedAt(d, names, p);
      if At(reduced, p) == At(d, p) {
        ObtainedIsASurvivor(reduced, names, p, k);
      }
    }
  }

  /** `after` differs from `d` in the groups of `names` alone. */
  predicate Untouched(d: Listing, after: Listing, names: seq<nat>) {
    |after| == |d| && forall g :: 0 <= g < |d| && g !in names ==> after[g] == d[g]
  }

  /** A set's reduction touches no other group. */
  lemma OtherSetsUntouched(d: Listing, names: seq<nat>)
    requires Named(|d|, names)
    ensures Untouched(d, SetReduced(d, names), names)
  {
    if FlaggedOf(d, names) != [] {
      DroppedAreIn(d, names);
      RescueFacts(Reduced(d, names), names, DroppedOf(d, FlaggedOf(d, names), Decide(d, names)));
    }
  }

  /** What the decision makes of one url of the set. */
  lemma ReducedAt(d: Listing, names: seq<nat>, p: Pos)
    requires Named(|d|, names) && In(d, p) && p.group in names
    ensures
      var dec := Decide(d, names);
      In(Reduced(d, names), p) &&
      At(Reduced(d, names), p) ==
        if dec == Promote(p.group) then (if At(d, p).isPublic then At(d, p).Flagged() else At(d, p))
        else if IsFlagged(d[p.group]) && Drops(dec, p.group) then At(d, p).Unflagged()
        else At(d, p)
  {
  }

  /** The rescue flags nothing but dropped public urls. */
  lemma RescueFlagsOnlyDropped(d: Listing, names: seq<nat>, p: Pos)
    requires Named(|d|, names) && FlaggedOf(d, names) != [] && In(d, p)
    requires In(Reduced(d, names), p) && !At(Reduced(d, names), p).download && Grabs(SetReduced(d, names), p)
    ensures At(Reduced(d, names), p).isPublic && At(d, p).download
  {
    var dropped := DroppedOf(d, FlaggedOf(d, names), Decide(d, names));
    DroppedAreIn(d, names);
    DroppedHolds(d, FlaggedOf(d, names), Decide(d, names));
    RescueFacts(Reduced(d, names), names, dropped);
    assert RescuedAt(Reduced(d, names), names, dropped, SetReduced(d, names), p);
  }

  /** A newly flagged url stands in for a copy held wrong: it is a public url of a group with no url flagged and none a
    * fallback's, in a set where a flagged group has an upgrade.
    */
  lemma NewGrabIsAPromotion(d: Listing, names: seq<nat>, p: Pos)
    requires Named(|d|, names) && In(d, p) && p.group in names
    requires !At(d, p).download && Grabs(SetReduced(d, names), p)
    ensures At(d, p).isPublic && (forall u :: u in d[p.group].urls ==> !u.download && !u.isFallback)
    ensures exists g, u, v :: g in names && u in d[g].urls && v in d[g].urls && u.download && v.upgrade
    ensures Decide(d, names) == Promote(p.group)
  {
    ReducedAt(d, names, p);
    if !At(Reduced(d, names), p).download {
      RescueFlagsOnlyDropped(d, names, p);
    }
    DecisionFacts(d, names);
    PendingIs(d, names);
  }

  lemma ReductionDropsPrivateGrabs(d: Listing, names: seq<nat>, p: Pos)
    requires Named(|d|, names) && In(d, p) && p.group in names && !At(d, p).isPublic
    requires Decide(d, names).Keep? && FlaggedAllAddable(d[Decide(d, names).group])
    ensures !At(Reduced(d, names), p).download
  {
    ReducedAt(d, names, p);
    assert At(d, p) in d[p.group].urls;
  }

  /** Where some flagged group is wholly addable, no private url of the set stays flagged. */
  lemma NoPrivateGrabStays(d: Listing, names: seq<nat>, g: nat, p: Pos)
    requires Named(|d|, names) && g in FlaggedOf(d, names) && IsPublicGroup(d[g]) && FlaggedAllAddable(d[g])
    requires In(d, p) && p.group in names && !At(d, p).isPublic
    ensures !Grabs(SetReduced(d, names), p)
  {
    DecisionFacts(d, names);
    ReductionDropsPrivateGrabs(d, names, p);
    ReducedAt(d, names, p);
    if Grabs(SetReduced(d, names), p) {
      RescueFlagsOnlyDropped(d, names, p);
    }
  }

  // The whole phase.

  ghost predicate Apart(sets: seq<seq<nat>>) {
    forall s: nat, t: nat, g: nat :: s < |sets| && t < |sets| && s != t && g in sets[s] ==> g !in sets[t]
  }

  lemma SetsAreApart(d: Listing)
    ensures Apart(SetsOf(d, |d|))
  {
    var sets := SetsOf(d, |d|);
    forall s: nat, t: nat, g: nat | s < |sets| && t < |sets| && s != t && g in sets[s] ensures g !in sets[t] {
      if g in sets[t] {
        SetsAreKeyClasses(d, s, t, g, g);
      }
    }
  }

  /** A group changes only in the turn of a set that holds it. */
  lemma {:induction false} OnlyItsOwnTurn(states: seq<Listing>, sets: seq<seq<nat>>, m: nat, n: nat, g: nat)
    requires m <= n <= |sets| < |states| && g < |states[m]|
    requires forall t :: m <= t < n ==> Untouched(states[t], states[t + 1], sets[t]) && g !in sets[t]
    ensures g < |states[n]| && states[n][g] == states[m][g]
  {
    if m < n {
      OnlyItsOwnTurn(states, sets, m, n - 1, g);
    }
  }

  /** The listing before each turn, and at the end. */
  function States(d: Listing, sets: seq<seq<nat>>): (states: seq<Listing>)
    requires AllSound(|d|, sets)
    ensures |states| == |sets| + 1
    ensures forall t :: 0 <= t <= |sets| ==> states[t] == SetsReduced(d, sets, t)
  {
    seq(|sets| + 1, t requires 0 <= t <= |sets| => SetsReduced(d, sets, t))
  }

  lemma EachTurnIsItsSets(d: Listing, sets: seq<seq<nat>>)
    requires AllSound(|d|, sets)
    ensures forall t :: 0 <= t < |sets| ==> Untouched(States(d, sets)[t], States(d, sets)[t + 1], sets[t])
  {
    forall t | 0 <= t < |sets| ensures Untouched(States(d, sets)[t], States(d, sets)[t + 1], sets[t]) {
      OtherSetsUntouched(SetsReduced(d, sets, t), sets[t]);
    }
  }

  lemma SurvivorsByGroups(d: Listing, e: Listing, names: seq<nat>)
    requires Named(|d|, names) && Named(|e|, names) && forall g :: g in names ==> d[g] == e[g]
    ensures SurvivorKeys(d, names) == SurvivorKeys(e, names)
  {
  }

  /** Every turn is its own set's, over listings of one length. */
  ghost predicate TurnByTurn(states: seq<Listing>, sets: seq<seq<nat>>) {
    && |states| == |sets| + 1
    && AllSound(|states[0]|, sets) && Apart(sets)
    && (forall t :: 0 <= t <= |sets| ==> |states[t]| == |states[0]|)
    && (forall t :: 0 <= t < |sets| ==> Untouched(states[t], states[t + 1], sets[t]))
  }

  /** Before its turn a set's groups are as they were, after it as the turn left them. */
  lemma TurnFramed(states: seq<Listing>, sets: seq<seq<nat>>, s: nat, g: nat)
    requires TurnByTurn(states, sets) && s < |sets| && g in sets[s]
    ensures g < |states[0]|
    ensures states[s][g] == states[0][g] && states[|sets|][g] == states[s + 1][g]
  {
    assert Named(|states[0]|, sets[s]);
    OnlyItsOwnTurn(states, sets, 0, s, g);
    OnlyItsOwnTurn(states, sets, s + 1, |sets|, g);
  }

  lemma LaterTurnsKeep(states: seq<Listing>, sets: seq<seq<nat>>, s: nat)
    requires TurnByTurn(states, sets) && s < |sets|
    ensures Named(|states[s + 1]|, sets[s]) && Named(|states[|sets|]|, sets[s])
    ensures SurvivorKeys(states[s + 1], sets[s]) == SurvivorKeys(states[|sets|], sets[s])
  {
    forall g | g in sets[s] ensures states[s + 1][g] == states[|sets|][g] {
      TurnFramed(states, sets, s, g);
    }
    SurvivorsByGroups(states[s + 1], states[|sets|], sets[s]);
  }

  lemma PhaseKeepsCoverage(d: Listing, sets: seq<seq<nat>>, s: nat, p: Pos, k: EpisodeKey)
    requires AllSound(|d|, sets) && Apart(sets) && s < |sets|
    requires In(d, p) && p.group in sets[s] && At(d, p).Obtains() && k in At(d, p).keys
    ensures k in SurvivorKeys(SetsReduced(d, sets, |sets|), sets[s])
  {
    var states := States(d, sets);
    EachTurnIsItsSets(d, sets);
    assert TurnByTurn(states, sets);
    TurnFramed(states, sets, s, p.group);
    LaterTurnsKeep(states, sets, s);
    TurnKeepsCoverage(states[s], states[s + 1], sets[s], p, k);
  }

  lemma TurnKeepsCoverage(d: Listing, after: Listing, names: seq<nat>, p: Pos, k: EpisodeKey)
    requires Named(|d|, names) && after == SetReduced(d, names)
    requires In(d, p) && p.group in names && At(d, p).Obtains() && k in At(d, p).keys
    ensures k in SurvivorKeys(after, names)
  {
    SetKeepsCoverage(d, names, p, k);
  }

  /** A survivor key has a url that carries it. */
  lemma SurvivorHasAUrl(d: Listing, names: seq<nat>, k: EpisodeKey) returns (q: Pos)
    requires Named(|d|, names) && k in SurvivorKeys(d, names)
    ensures In(d, q) && q.group in names && At(d, q).Obtains() && k in At(d, q).keys
  {
    var g :| g in names && k in KeysOfUrls(d[g].urls);
    var i :| 0 <= i < |d[g].urls| && d[g].urls[i].Obtains() && k in d[g].urls[i].keys;
    q := Pos(g, i);
  }

  /** Coverage preservation: every episode that some flagged public url carried before the same-files phase is
    * carried after it by a flagged public url of the same set.
    */
  lemma CoveragePreserved(d: Listing, p: Pos, k: EpisodeKey)
    requires In(d, p) && At(d, p).Obtains() && k in At(d, p).keys
    ensures exists q ::
      && In(SameFilesPhase(d), q) && KeyOf(d, q.group) == KeyOf(d, p.group)
      && At(SameFilesPhase(d), q).Obtains() && k in At(SameFilesPhase(d), q).keys
  {
    var sets := SetsOf(d, |d|);
    SetsPartition(d, |d|);
    assert Placed(sets, p.group);
    var s :| 0 <= s < |sets| && p.group in sets[s];
    SetsAreApart(d);
    PhaseKeepsCoverage(d, sets, s, p, k);
    var q := SurvivorHasAUrl(SameFilesPhase(d), sets[s], k);
    SetsAreKeyClasses(d, s, s, q.group, p.group);
  }

  /** A skipped set is one nothing public was flagged in, and nothing of it stays flagged. */
  lemma SkipMeansNothingPublic(d: Listing, names: seq<nat>, skips: Skips)
    requires Named(|d|, names) && FlaggedOf(d, names) != []
    requires !skips.skipped && Reported(d, names, skips).skipped
    ensures forall g, u, v :: g in names && u in d[g].urls && v in d[g].urls && u.download ==> !v.isPublic
    ensures forall g, u :: g in names && u in Reduced(d, names)[g].urls ==> !u.download
    ensures Reported(d, names, skips).groups == skips.groups + FlaggedOf(d, names)
  {
    DecisionFacts(d, names);
    WhereHolds(d, names, IsFlagged);
    forall g | g in names ensures !IsFlagged(Reduced(d, names)[g]) {
      HeldSetKeepsNothing(d, names, g);
    }
  }
}
