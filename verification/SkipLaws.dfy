/** What a call reports, told from its input alone: whether it held a set back, left a stale copy or found a fallback's
  * files owned.
  */
module SkipLaws {
  import opened ReductionSpec
  import opened ReductionLaws
  import opened DecisionLaws

  /** A flagged set leaves a stale copy. */
  ghost predicate LeavesStale(d: Listing, names: seq<nat>)
    requires Named(|d|, names)
  {
    AnyGroup(d, names, HasGrab) && HoldsStale(d, names)
  }

  /** A set's turn reports a skip exactly when it holds the set back, a stale copy exactly when it leaves one, and a
    * fallback exactly when it found its files owned; none is ever taken back.
    */
  lemma TurnSkipsIff(d: Listing, names: seq<nat>, skips: Skips)
    requires Named(|d|, names)
    ensures TurnReported(d, names, skips).skipped <==> skips.skipped || HeldBack(d, names)
    ensures TurnReported(d, names, skips).staleHeld <==> skips.staleHeld || LeavesStale(d, names)
    ensures TurnReported(d, names, skips).fallbackCovered <==> skips.fallbackCovered || Covered(d, names)
  {
    if AnyGroup(d, names, HasGrab) {
      TurnReports(d, names, skips);
    } else {
      QuietTurn(d, names, skips);
    }
  }

  lemma AnyByGroups(d: Listing, e: Listing, names: seq<nat>, test: Group -> bool)
    requires Named(|d|, names) && Named(|e|, names) && forall g :: g in names ==> d[g] == e[g]
    ensures AnyGroup(d, names, test) <==> AnyGroup(e, names, test)
  {
  }

  /** What the report reads of a listing are the set's own groups. */
  lemma ReportByGroups(d: Listing, e: Listing, names: seq<nat>)
    requires Named(|d|, names) && Named(|e|, names) && forall g :: g in names ==> d[g] == e[g]
    ensures HeldBack(d, names) <==> HeldBack(e, names)
    ensures HoldsStale(d, names) <==> HoldsStale(e, names)
    ensures Covered(d, names) <==> Covered(e, names)
    ensures AnyGroup(d, names, HasGrab) <==> AnyGroup(e, names, HasGrab)
  {
    AnyByGroups(d, e, names, HasGrab);
    AnyByGroups(d, e, names, MayStay);
    AnyByGroups(d, e, names, StaysWhole);
    AnyByGroups(d, e, names, MayStandIn);
    AnyByGroups(d, e, names, OwnedFallback);
    assert HeldWrong(d, names) <==> HeldWrong(e, names);
    assert FallbackRides(d, names) <==> FallbackRides(e, names);
  }

  /** Before its own turn a set is as the call found it. */
  lemma UntilItsTurn(d: Listing, sets: seq<seq<nat>>, n: nat)
    requires AllSound(|d|, sets) && Apart(sets) && n < |sets|
    ensures forall g :: g in sets[n] ==> SetsReduced(d, sets, n)[g] == d[g]
  {
    var states := States(d, sets);
    EachTurnIsItsSets(d, sets);
    assert TurnByTurn(states, sets);
    forall g | g in sets[n] ensures states[n][g] == states[0][g] {
      TurnFramed(states, sets, n, g);
    }
  }

  lemma TurnGoesOn(d: Listing, sets: seq<seq<nat>>, n: nat)
    requires AllSound(|d|, sets) && Apart(sets) && n < |sets|
    ensures
      var before, after := SetsReported(d, sets, n, NO_SKIPS), SetsReported(d, sets, n + 1, NO_SKIPS);
      && (after.skipped <==> before.skipped || HeldBack(d, sets[n]))
      && (after.staleHeld <==> before.staleHeld || LeavesStale(d, sets[n]))
      && (after.fallbackCovered <==> before.fallbackCovered || Covered(d, sets[n]))
  {
    UntilItsTurn(d, sets, n);
    ReportByGroups(SetsReduced(d, sets, n), d, sets[n]);
    TurnSkipsIff(SetsReduced(d, sets, n), sets[n], SetsReported(d, sets, n, NO_SKIPS));
  }

  ghost function HeldBacks(d: Listing, sets: seq<seq<nat>>): seq<bool>
    requires AllSound(|d|, sets)
  {
    seq(|sets|, s requires 0 <= s < |sets| => HeldBack(d, sets[s]))
  }

  ghost function Stales(d: Listing, sets: seq<seq<nat>>): seq<bool>
    requires AllSound(|d|, sets)
  {
    seq(|sets|, s requires 0 <= s < |sets| => LeavesStale(d, sets[s]))
  }

  ghost function Covereds(d: Listing, sets: seq<seq<nat>>): seq<bool>
    requires AllSound(|d|, sets)
  {
    seq(|sets|, s requires 0 <= s < |sets| => Covered(d, sets[s]))
  }

  /** What has been told before each turn, and at the end. */
  function Told(d: Listing, sets: seq<seq<nat>>): seq<Skips>
    requires AllSound(|d|, sets)
  {
    seq(|sets| + 1, n requires 0 <= n <= |sets| => SetsReported(d, sets, n, NO_SKIPS))
  }

  lemma {:induction false} TellingsAddUp(told: seq<bool>, held: seq<bool>, n: nat)
    requires n <= |held| < |told| && !told[0]
    requires forall t :: 0 <= t < |held| ==> told[t + 1] == (told[t] || held[t])
    ensures told[n] <==> true in held[..n]
  {
    if n > 0 {
      TellingsAddUp(told, held, n - 1);
      assert held[..n] == held[..n - 1] + [held[n - 1]];
    }
  }

  lemma ToldAddsUp(told: seq<Skips>, held: seq<bool>, stale: seq<bool>, covered: seq<bool>)
    requires |held| == |stale| == |covered| == |told| - 1 && told[0] == NO_SKIPS
    requires forall t :: 0 <= t < |held| ==>
      && told[t + 1].skipped == (told[t].skipped || held[t])
      && told[t + 1].staleHeld == (told[t].staleHeld || stale[t])
      && told[t + 1].fallbackCovered == (told[t].fallbackCovered || covered[t])
    ensures told[|held|].skipped <==> true in held
    ensures told[|held|].staleHeld <==> true in stale
    ensures told[|held|].fallbackCovered <==> true in covered
  {
    var n := |held|;
    assert held[..n] == held && stale[..n] == stale && covered[..n] == covered;
    TellingsAddUp(seq(n + 1, t requires 0 <= t <= n => told[t].skipped), held, n);
    TellingsAddUp(seq(n + 1, t requires 0 <= t <= n => told[t].staleHeld), stale, n);
    TellingsAddUp(seq(n + 1, t requires 0 <= t <= n => told[t].fallbackCovered), covered, n);
  }

  lemma ToldGoesOn(d: Listing, sets: seq<seq<nat>>, t: nat)
    requires AllSound(|d|, sets) && Apart(sets) && t < |sets|
    ensures
      var before, after := Told(d, sets)[t], Told(d, sets)[t + 1];
      && after.skipped == (before.skipped || HeldBacks(d, sets)[t])
      && after.staleHeld == (before.staleHeld || Stales(d, sets)[t])
      && after.fallbackCovered == (before.fallbackCovered || Covereds(d, sets)[t])
  {
    TurnGoesOn(d, sets, t);
    ToldAt(d, sets, t);
    ToldAt(d, sets, t + 1);
    MarksAt(d, sets, t);
  }

  lemma ToldAt(d: Listing, sets: seq<seq<nat>>, t: nat)
    requires AllSound(|d|, sets) && t <= |sets|
    ensures Told(d, sets)[t] == SetsReported(d, sets, t, NO_SKIPS)
  {
  }

  lemma MarksAt(d: Listing, sets: seq<seq<nat>>, t: nat)
    requires AllSound(|d|, sets) && t < |sets|
    ensures HeldBacks(d, sets)[t] == HeldBack(d, sets[t])
    ensures Stales(d, sets)[t] == LeavesStale(d, sets[t])
    ensures Covereds(d, sets)[t] == Covered(d, sets[t])
  {
  }

  lemma SetsSkipIff(d: Listing, sets: seq<seq<nat>>)
    requires AllSound(|d|, sets) && Apart(sets)
    ensures SetsReported(d, sets, |sets|, NO_SKIPS).skipped <==> true in HeldBacks(d, sets)
    ensures SetsReported(d, sets, |sets|, NO_SKIPS).staleHeld <==> true in Stales(d, sets)
    ensures SetsReported(d, sets, |sets|, NO_SKIPS).fallbackCovered <==> true in Covereds(d, sets)
  {
    var told := Told(d, sets);
    var held, stale, covered := HeldBacks(d, sets), Stales(d, sets), Covereds(d, sets);
    forall t | 0 <= t < |held|
      ensures told[t + 1].skipped == (told[t].skipped || held[t])
      ensures told[t + 1].staleHeld == (told[t].staleHeld || stale[t])
      ensures told[t + 1].fallbackCovered == (told[t].fallbackCovered || covered[t])
    {
      ToldGoesOn(d, sets, t);
    }
    ToldAddsUp(told, held, stale, covered);
  }

  /** A call reports a skip exactly when some same-files set of its input is held back, a stale copy exactly when some
    * flagged one leaves one, and a fallback exactly when some one's files are owned.
    */
  lemma CallSkipsIff(d: Listing)
    ensures
      var sets, told := SetsOf(d, |d|), CallReported(d, false);
      && (told.skipped <==> exists s :: 0 <= s < |sets| && HeldBack(d, sets[s]))
      && (told.staleHeld <==> exists s :: 0 <= s < |sets| && LeavesStale(d, sets[s]))
      && (told.fallbackCovered <==> exists s :: 0 <= s < |sets| && Covered(d, sets[s]))
  {
    var sets := SetsOf(d, |d|);
    SetsAreApart(d);
    SetsSkipIff(d, sets);
    forall s | 0 <= s < |sets|
      ensures HeldBacks(d, sets)[s] == HeldBack(d, sets[s])
      ensures Stales(d, sets)[s] == LeavesStale(d, sets[s])
      ensures Covereds(d, sets)[s] == Covered(d, sets[s])
    {
    }
  }
}
