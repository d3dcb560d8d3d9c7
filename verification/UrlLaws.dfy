/** What a same-files set's turn leaves of each url, in what order it rescues what it dropped, and which groups share a
  * set, all told from the urls themselves.
  */
module UrlLaws {
  import opened ReductionSpec
  import opened ReductionLaws
  import opened DecisionLaws

  /** Two groups share a set exactly when neither was parsed, both place the same episodes, or they are one group. */
  lemma SharesASetIff(d: Listing, s: nat, t: nat, g: nat, h: nat)
    requires
      var sets := SetsOf(d, |d|);
      s < |sets| && t < |sets| && g in sets[s] && h in sets[t]
    ensures g < |d| && h < |d|
    ensures s == t <==>
      || g == h
      || (d[g].coverage.None? && d[h].coverage.None?)
      || (d[g].coverage.Some? && d[g].coverage == d[h].coverage && d[g].coverage.value != {})
  {
    SetsAreKeyClasses(d, s, t, g, h);
    SetsPartition(d, |d|);
  }

  /** The members of a set come in listing order, and so do the sets by their first members. */
  lemma SetsInOrder(d: Listing)
    ensures
      var sets := SetsOf(d, |d|);
      && (forall s, i, j :: 0 <= s < |sets| && 0 <= i < j < |sets[s]| ==> sets[s][i] < sets[s][j])
      && (forall s, t :: 0 <= s < t < |sets| ==> sets[s] != [] && sets[t] != [] && sets[s][0] < sets[t][0])
  {
    SetsPartition(d, |d|);
    FirstsGrow(d, |d|);
    assert forall s :: 0 <= s < |SetsOf(d, |d|)| ==> GoodSet(d, SetsOf(d, |d|)[s], |d|);
  }

  predicate FirstsInOrder(sets: seq<seq<nat>>, n: nat) {
    && (forall s :: 0 <= s < |sets| ==> sets[s] != [] && sets[s][0] < n)
    && (forall s, t :: 0 <= s < t < |sets| ==> sets[s][0] < sets[t][0])
  }

  lemma AddGroupInOrder(d: Listing, sets: seq<seq<nat>>, n: nat, after: seq<seq<nat>>)
    requires n < |d| && AllSound(|d|, sets) && FirstsInOrder(sets, n) && after == AddGroup(d, sets, n)
    ensures FirstsInOrder(after, n + 1)
  {
    var found := FindSet(d, sets, KeyOf(d, n));
    forall s | 0 <= s < |after| ensures after[s] != [] && after[s][0] == if s < |sets| then sets[s][0] else n {
      if found.Some? && s == found.value {
        assert after[s] == sets[s] + [n];
      }
    }
  }

  lemma {:induction false} FirstsGrow(d: Listing, n: nat)
    requires n <= |d|
    ensures FirstsInOrder(SetsOf(d, n), n)
  {
    if n > 0 {
      FirstsGrow(d, n - 1);
      AddGroupInOrder(d, SetsOf(d, n - 1), n - 1, SetsOf(d, n));
    }
  }

  /** What the decision leaves of a url: the kept group's stay as they were, a stand-in's public ones are grabbed, and
    * the rest of the set is let go, upgrade and all.
    */
  lemma DecisionLeaves(d: Listing, names: seq<nat>, p: Pos)
    requires Named(|d|, names) && In(d, p) && p.group in names && AnyGroup(d, names, HasGrab)
    ensures In(Reduced(d, names), p)
    ensures
      var u, v := At(d, p), At(Reduced(d, names), p);
      match Decide(d, names)
      case Keep(k) => if p.group == k then v == u else LetGo(d, p, v)
      case Promote(k) => if p.group == k then v == u.(download := u.download || u.isPublic) else LetGo(d, p, v)
      case DropAll => LetGo(d, p, v)
  {
    ReducedAt(d, names, p);
    DecisionFacts(d, names) by {
      FlaggedAre(d, names);
    }
    if Decide(d, names) == Promote(p.group) {
      assert At(d, p) in d[p.group].urls;
    }
  }

  /** A url let go: of a flagged group it loses both flags, and one of an unflagged group had none to lose. */
  predicate LetGo(d: Listing, p: Pos, v: Url)
    requires In(d, p)
  {
    var u := At(d, p);
    v == if HasGrab(d[p.group]) then u.(download := false, upgrade := false) else u
  }

  /** The rescue goes through what was dropped in order: each public url is grabbed again exactly when some episode of
    * it is on no flagged public url of the set by then.
    */
  lemma RescueTakesInOrder(d: Listing, names: seq<nat>, dropped: seq<Pos>, i: nat)
    requires Named(|d|, names) && AllIn(d, names, dropped) && i < |dropped|
    ensures
      var before := RescueAll(d, SurvivorKeys(d, names), dropped[..i]).listing;
      var after := RescueAll(d, SurvivorKeys(d, names), dropped[..i + 1]).listing;
      && In(before, dropped[i])
      && after ==
           if At(before, dropped[i]).isPublic
              && exists k :: k in At(before, dropped[i]).keys && NoneCarries(before, names, k)
           then GrabAt(before, dropped[i])
           else before
  {
    var before := RescueAll(d, SurvivorKeys(d, names), dropped[..i]);
    RescueFacts(d, names, dropped[..i]);
    assert dropped[..i + 1][..i] == dropped[..i];
    assert In(d, dropped[i]);
    forall k ensures k !in SurvivorKeys(before.listing, names) <==> NoneCarries(before.listing, names, k) {
      if k in SurvivorKeys(before.listing, names) {
        var q := SurvivorHasAUrl(before.listing, names, k);
        assert At(before.listing, q) in before.listing[q.group].urls;
      }
      if g, u :| g in names && u in before.listing[g].urls && u.download && u.isPublic && k in u.keys {
        assert k in KeysOfUrls(before.listing[g].urls);
      }
    }
  }

  /** No flagged public url of the set carries the episode. */
  predicate NoneCarries(d: Listing, names: seq<nat>, k: EpisodeKey)
    requires Named(|d|, names)
  {
    forall g, u :: g in names && u in d[g].urls && u.download && u.isPublic ==> k !in u.keys
  }

  /** The listing with one url's grab set. */
  function GrabAt(d: Listing, p: Pos): Listing
    requires In(d, p)
  {
    d[p.group := d[p.group].(urls := d[p.group].urls[p.index := At(d, p).(download := true)])]
  }

  /** Position `p` comes before `q`: in an earlier group, or earlier in the same one. */
  predicate Before(p: Pos, q: Pos) {
    p.group < q.group || (p.group == q.group && p.index < q.index)
  }

  predicate InOrder(positions: seq<Pos>) {
    forall i, j :: 0 <= i < j < |positions| ==> Before(positions[i], positions[j])
  }

  lemma {:induction false} PositionsInOrder(urls: seq<Url>, group: nat, n: nat)
    requires n <= |urls|
    ensures InOrder(FlaggedPositions(urls, group, n))
    ensures forall i :: 0 <= i < |FlaggedPositions(urls, group, n)| ==>
      FlaggedPositions(urls, group, n)[i].group == group && FlaggedPositions(urls, group, n)[i].index < n
  {
    if n > 0 {
      PositionsInOrder(urls, group, n - 1);
    }
  }

  /** What a decision drops of groups in order, it drops in order: group by group, url by url. */
  lemma {:induction false} DroppedInOrder(d: Listing, flagged: seq<nat>, dec: Decision)
    requires Named(|d|, flagged) && forall i, j :: 0 <= i < j < |flagged| ==> flagged[i] < flagged[j]
    ensures InOrder(DroppedOf(d, flagged, dec))
  {
    if flagged != [] {
      var n := |flagged| - 1;
      var before, last := DroppedOf(d, flagged[..n], dec), flagged[n];
      var more := FlaggedPositions(d[last].urls, last, |d[last].urls|);
      DroppedInOrder(d, flagged[..n], dec);
      DroppedHolds(d, flagged[..n], dec);
      PositionsInOrder(d[last].urls, last, |d[last].urls|);
      FlaggedPositionsHold(d[last].urls, last, |d[last].urls|);
      forall i | 0 <= i < |before| ensures before[i].group < last {
        assert before[i] in before;
      }
      forall i | 0 <= i < |more| ensures more[i].group == last {
        assert more[i] in more;
      }
    }
  }

  /** The last loop lets a flagged url with sizes go exactly when an earlier flagged url of its group has the same
    * ones, as often each, and leaves every other as it was.
    */
  lemma DedupeLeaves(urls: seq<Url>, i: nat)
    requires i < |urls|
    ensures |DedupedUrls(urls)| == |urls|
    ensures DedupedUrls(urls)[i] ==
            if urls[i].download && |urls[i].sizes| > 0
               && exists j :: 0 <= j < i && urls[j].download && multiset(urls[j].sizes) == multiset(urls[i].sizes)
            then urls[i].(download := false, upgrade := false)
            else urls[i]
  {
  }

  /** A hand-picked listing is left as it is, and nothing is reported of it; any other goes through the sets, then the
    * last loop, group by group.
    */
  lemma HandPickedIsLeft(d: Listing)
    ensures ReducedListing(d, true) == d && CallReported(d, true) == Skips(false, [], [], false, false)
    ensures |ReducedListing(d, false)| == |d|
    ensures forall g :: 0 <= g < |d| ==>
      ReducedListing(d, false)[g] == SameFilesPhase(d)[g].(urls := DedupedUrls(SameFilesPhase(d)[g].urls))
  {
  }
}
