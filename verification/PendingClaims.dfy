/** Claims joining a record over its life (`with_claim`, manual_import.py). */
module PendingClaims {
  import opened Wrappers
  import opened NameFolding
  import opened PendingRecords

  /** Where an entry's claim stands, or the end. */
  function IndexOf(claims: seq<EntryClaim>, alId: int): (i: nat)
    ensures i <= |claims|
    ensures i < |claims| ==> claims[i].alId == alId
    ensures forall j :: 0 <= j < i ==> claims[j].alId != alId
  {
    if claims == [] || claims[0].alId == alId then 0 else 1 + IndexOf(claims[1..], alId)
  }

  /** A claim takes the first clock and preowned ids of its entry. */
  function Keeping(claim: EntryClaim, stored: EntryClaim): EntryClaim {
    claim.(preownedEpisodeIds := stored.preownedEpisodeIds, claimedAt := stored.claimedAt)
  }

  function Joined(claims: seq<EntryClaim>, claim: EntryClaim): seq<EntryClaim> {
    var i := IndexOf(claims, claim.alId);
    if i == |claims| then claims + [claim] else claims[i := Keeping(claim, claims[i])]
  }

  /** `with_claim`. */
  function WithClaim(leaf: string -> string, r: PendingImport, claim: EntryClaim): PendingImport {
    Fold(leaf, r.(claims := Joined(r.claims, claim), awaitingCleanup := false))
  }

  function WithClaims(leaf: string -> string, r: PendingImport, given: seq<EntryClaim>): PendingImport {
    if given == [] then r
    else WithClaim(leaf, WithClaims(leaf, r, given[..|given| - 1]), given[|given| - 1])
  }

  /** `with_claim` as the loop it is: find the stored claim, replace it in place. */
  method JoinClaim(claims: seq<EntryClaim>, claim: EntryClaim) returns (joined: seq<EntryClaim>)
    ensures joined == Joined(claims, claim)
  {
    joined := claims + [claim];
    for index := 0 to |claims|
      invariant joined == claims + [claim]
      invariant forall j :: 0 <= j < index ==> claims[j].alId != claim.alId
    {
      if claims[index].alId == claim.alId {
        joined := claims[..index] + [Keeping(claim, claims[index])] + claims[index + 1..];
        return;
      }
    }
  }

  ghost predicate DistinctClaims(claims: seq<EntryClaim>) {
    forall i, j :: 0 <= i < j < |claims| ==> claims[i].alId != claims[j].alId
  }

  /** The first and the latest of some claims by one entry. */
  function FirstOf(claims: seq<EntryClaim>, alId: int): Option<EntryClaim> {
    if claims == [] then None
    else if claims[0].alId == alId then Some(claims[0])
    else FirstOf(claims[1..], alId)
  }

  function LatestOf(claims: seq<EntryClaim>, alId: int): Option<EntryClaim> {
    if claims == [] then None
    else if claims[|claims| - 1].alId == alId then Some(claims[|claims| - 1])
    else LatestOf(claims[..|claims| - 1], alId)
  }

  /** The entries in the order they first claimed. */
  function Entries(claims: seq<EntryClaim>): seq<int> {
    if claims == [] then []
    else
      var before, last := Entries(claims[..|claims| - 1]), claims[|claims| - 1].alId;
      if last in before then before else before + [last]
  }

  /** What a record's claims are after all it was ever given: one for each entry, in first-claim order, its content
    * the latest and its clock and preowned ids the first.
    */
  ghost predicate History(claims: seq<EntryClaim>, given: seq<EntryClaim>) {
    && |claims| == |Entries(given)|
    && forall i :: 0 <= i < |claims| ==>
         var alId := Entries(given)[i];
         && FirstOf(given, alId).Some? && LatestOf(given, alId).Some?
         && claims[i] ==
              LatestOf(given, alId).value.(
                preownedEpisodeIds := FirstOf(given, alId).value.preownedEpisodeIds,
                claimedAt := FirstOf(given, alId).value.claimedAt)
  }

  lemma {:induction false} FirstOfMore(given: seq<EntryClaim>, claim: EntryClaim, alId: int)
    ensures FirstOf(given + [claim], alId) ==
            if FirstOf(given, alId).Some? then FirstOf(given, alId)
            else if claim.alId == alId then Some(claim)
            else None
    ensures FirstOf(given, alId).Some? ==> FirstOf(given, alId).value.alId == alId
  {
    if given != [] {
      assert (given + [claim])[1..] == given[1..] + [claim];
      FirstOfMore(given[1..], claim, alId);
    }
  }

  lemma LatestOfMore(given: seq<EntryClaim>, claim: EntryClaim, alId: int)
    ensures LatestOf(given + [claim], alId) == if claim.alId == alId then Some(claim) else LatestOf(given, alId)
  {
    assert (given + [claim])[..|given|] == given;
  }

  lemma {:induction false} EntriesHold(given: seq<EntryClaim>, alId: int)
    ensures alId in Entries(given) <==> FirstOf(given, alId).Some?
    ensures forall i, j :: 0 <= i < j < |Entries(given)| ==> Entries(given)[i] != Entries(given)[j]
  {
    if given != [] {
      var n := |given| - 1;
      assert given == given[..n] + [given[n]];
      EntriesHold(given[..n], alId);
      EntriesHold(given[..n], given[n].alId);
      FirstOfMore(given[..n], given[n], alId);
      FirstOfMore(given[..n], given[n], given[n].alId);
    }
  }

  lemma {:induction false} LatestIsAmong(given: seq<EntryClaim>, alId: int)
    ensures LatestOf(given, alId).Some? ==> LatestOf(given, alId).value.alId == alId
  {
    if given != [] {
      LatestIsAmong(given[..|given| - 1], alId);
    }
  }

  lemma HistoryIds(claims: seq<EntryClaim>, given: seq<EntryClaim>, i: nat)
    requires History(claims, given) && i < |claims|
    ensures claims[i].alId == Entries(given)[i]
  {
    LatestIsAmong(given, Entries(given)[i]);
  }

  /** One more claim keeps the history. */
  lemma JoinKeepsHistory(claims: seq<EntryClaim>, given: seq<EntryClaim>, claim: EntryClaim)
    requires History(claims, given)
    ensures History(Joined(claims, claim), given + [claim])
  {
    var k, more := IndexOf(claims, claim.alId), given + [claim];
    assert more[..|given|] == given;
    EntriesHold(given, claim.alId);
    forall i: nat | i < |claims| ensures claims[i].alId == Entries(given)[i] {
      HistoryIds(claims, given, i);
    }
    if k < |claims| {
      assert claim.alId == Entries(given)[k];
    } else {
      forall i: nat | i < |claims| ensures Entries(given)[i] != claim.alId {
        assert claims[i].alId != claim.alId;
      }
    }
    assert Entries(more) == if k < |claims| then Entries(given) else Entries(given) + [claim.alId];
    forall i: nat | i < |Entries(more)|
      ensures
        var alId := Entries(more)[i];
        && FirstOf(more, alId).Some? && LatestOf(more, alId).Some?
        && Joined(claims, claim)[i] == Keeping(LatestOf(more, alId).value, FirstOf(more, alId).value)
    {
      FirstOfMore(given, claim, Entries(more)[i]);
      LatestOfMore(given, claim, Entries(more)[i]);
    }
  }

  /** Claims with distinct entries are their own history. */
  lemma NewEntryAppends(claims: seq<EntryClaim>, claim: EntryClaim)
    requires forall j :: 0 <= j < |claims| ==> claims[j].alId != claim.alId
    ensures Joined(claims, claim) == claims + [claim]
  {
    assert IndexOf(claims, claim.alId) == |claims|;
  }

  lemma {:induction false} DistinctIsHistory(claims: seq<EntryClaim>)
    requires DistinctClaims(claims)
    ensures History(claims, claims)
  {
    if claims != [] {
      var n := |claims| - 1;
      var before, last := claims[..n], claims[n];
      assert before + [last] == claims;
      DistinctIsHistory(before);
      NewEntryAppends(before, last);
      JoinKeepsHistory(before, before, last);
    }
  }

  /** A well-formed record's claim changes its claims and cleanup flag and nothing else. */
  lemma ClaimTouchesClaimsOnly(leaf: string -> string, r: PendingImport, claim: EntryClaim)
    requires Idempotent(leaf) && WellFormed(leaf, r)
    ensures WithClaim(leaf, r, claim) == r.(claims := Joined(r.claims, claim), awaitingCleanup := false)
    ensures WellFormed(leaf, WithClaim(leaf, r, claim))
  {
    WellFormedStays(leaf, r.(claims := Joined(r.claims, claim), awaitingCleanup := false));
  }

  function JoinedAll(claims: seq<EntryClaim>, given: seq<EntryClaim>): seq<EntryClaim> {
    if given == [] then claims else Joined(JoinedAll(claims, given[..|given| - 1]), given[|given| - 1])
  }

  lemma {:induction false} JoinedAllIsHistory(claims: seq<EntryClaim>, given: seq<EntryClaim>)
    requires DistinctClaims(claims)
    ensures History(JoinedAll(claims, given), claims + given)
  {
    if given == [] {
      DistinctIsHistory(claims);
      assert claims + given == claims;
    } else {
      var n := |given| - 1;
      JoinedAllIsHistory(claims, given[..n]);
      JoinKeepsHistory(JoinedAll(claims, given[..n]), claims + given[..n], given[n]);
      assert claims + given[..n] + [given[n]] == claims + given;
    }
  }

  lemma {:induction false} ClaimsTouchClaimsOnly(leaf: string -> string, r: PendingImport, given: seq<EntryClaim>)
    requires Idempotent(leaf) && WellFormed(leaf, r)
    ensures WellFormed(leaf, WithClaims(leaf, r, given))
    ensures WithClaims(leaf, r, given) ==
            r.(claims := JoinedAll(r.claims, given), awaitingCleanup := given == [] && r.awaitingCleanup)
  {
    if given != [] {
      ClaimsTouchClaimsOnly(leaf, r, given[..|given| - 1]);
      ClaimTouchesClaimsOnly(leaf, WithClaims(leaf, r, given[..|given| - 1]), given[|given| - 1]);
    }
  }

  /** Claim history: over any claims given to a record, its claims are the history of all of them, so its entries stay
    * distinct; any claim clears the cleanup flag; and nothing but its claims and that flag changes.
    */
  lemma ClaimsAreTheHistory(leaf: string -> string, r: PendingImport, given: seq<EntryClaim>)
    requires Idempotent(leaf) && WellFormed(leaf, r) && DistinctClaims(r.claims)
    ensures
      var after := WithClaims(leaf, r, given);
      && History(after.claims, r.claims + given)
      && DistinctClaims(after.claims)
      && after == r.(claims := after.claims, awaitingCleanup := given == [] && r.awaitingCleanup)
  {
    ClaimsTouchClaimsOnly(leaf, r, given);
    JoinedAllIsHistory(r.claims, given);
    HistoryIsDistinct(WithClaims(leaf, r, given).claims, r.claims + given);
  }

  /** Entries of a history are distinct. */
  lemma HistoryIsDistinct(claims: seq<EntryClaim>, given: seq<EntryClaim>)
    requires History(claims, given)
    ensures DistinctClaims(claims)
  {
    EntriesHold(given, 0);
    forall i: nat | i < |claims| ensures claims[i].alId == Entries(given)[i] {
      HistoryIds(claims, given, i);
    }
  }
}
