/** Which release groups a claim trusts on disk, and at which sizes (`trusted_groups`, episode_state.py).
  * `norm` is the group folding (`normalize_group`).
  */
module TrustPolicies {
  import opened Wrappers
  import opened PendingRecords

  /** What each folded group must show: one of these sizes, or with None nothing beyond its name. */
  type TrustPolicy = map<string, Option<set<int>>>

  datatype GroupVotes = GroupVotes(own: OwnGroup, siblings: seq<OwnGroup>)

  /** `normalize_rg`. */
  function NormalizeRg(norm: string -> string, group: string): Option<string> {
    if group == "" then None else Some(norm(group))
  }

  /** The groups that normalize to something. */
  function Named(norm: string -> string, groups: seq<string>): set<string> {
    set g <- groups | g != "" && norm(g) != "" :: norm(g)
  }

  /** The siblings' groups but for the stale ones; one normalizing to nothing is kept. */
  function FreshSiblings(norm: string -> string, guards: Guards, siblings: seq<OwnGroup>): set<string> {
    set s <- siblings | s.releaseGroup != "" && norm(s.releaseGroup) !in Named(norm, guards.staleGroups) ::
      norm(s.releaseGroup)
  }

  /** The own listing's sizes and those of every sibling of the own group. */
  function OwnSizes(norm: string -> string, votes: GroupVotes): set<int> {
    (set size <- votes.own.sizes)
    + (set s <- votes.siblings, size <- s.sizes | OfOwnGroup(norm, votes, s) :: size)
  }

  function ByName(norm: string -> string, guards: Guards, siblings: seq<OwnGroup>): TrustPolicy {
    map n | n in Named(norm, guards.entryGroups) + FreshSiblings(norm, guards, siblings) :: None
  }

  /** The policy in closed form, whatever the order of the votes: the own group is held to sizes, and every other pick
    * or fresh sibling to its name.
    */
  function Trusted(norm: string -> string, guards: Guards, votes: GroupVotes): TrustPolicy {
    var own, sizes := NormalizeRg(norm, votes.own.releaseGroup), OwnSizes(norm, votes);
    var byName := ByName(norm, guards, votes.siblings);
    if own.None? || own.value == "" then byName else byName[own.value := if sizes == {} then None else Some(sizes)]
  }

  predicate OfOwnGroup(norm: string -> string, votes: GroupVotes, sibling: OwnGroup) {
    sibling.releaseGroup != "" && NormalizeRg(norm, sibling.releaseGroup) == NormalizeRg(norm, votes.own.releaseGroup)
  }

  lemma OneMoreSibling(norm: string -> string, guards: Guards, votes: GroupVotes, sibling: OwnGroup)
    ensures
      var name := norm(sibling.releaseGroup);
      FreshSiblings(norm, guards, votes.siblings + [sibling]) ==
        FreshSiblings(norm, guards, votes.siblings)
        + (if sibling.releaseGroup != "" && name !in Named(norm, guards.staleGroups) then {name} else {})
    ensures
      OwnSizes(norm, votes.(siblings := votes.siblings + [sibling])) ==
        OwnSizes(norm, votes) + (if OfOwnGroup(norm, votes, sibling) then set size <- sibling.sizes else {})
  {
    var more := votes.siblings + [sibling];
    forall size ensures size in OwnSizes(norm, votes.(siblings := more)) <==>
      size in OwnSizes(norm, votes) || (OfOwnGroup(norm, votes, sibling) && size in sibling.sizes)
    {
      if OfOwnGroup(norm, votes, sibling) && size in sibling.sizes {
        assert sibling in more;
      }
      if s :| s in votes.siblings && OfOwnGroup(norm, votes, s) && size in s.sizes {
        assert s in more;
      }
    }
  }

  /** The loop over the siblings, then the own group. */
  method TrustedGroups(norm: string -> string, guards: Guards, votes: GroupVotes) returns (trusted: TrustPolicy)
    ensures trusted == Trusted(norm, guards, votes)
  {
    var stale := Named(norm, guards.staleGroups);
    var ownNorm := NormalizeRg(norm, votes.own.releaseGroup);
    var ownSizes: set<int> := set size <- votes.own.sizes;
    trusted := map n | n in Named(norm, guards.entryGroups) :: None;
    for i := 0 to |votes.siblings|
      invariant trusted == ByName(norm, guards, votes.siblings[..i])
      invariant ownSizes == OwnSizes(norm, votes.(siblings := votes.siblings[..i]))
    {
      var sibling := votes.siblings[i];
      assert votes.siblings[..i + 1] == votes.siblings[..i] + [sibling];
      OneMoreSibling(norm, guards, votes.(siblings := votes.siblings[..i]), sibling);
      var name := NormalizeRg(norm, sibling.releaseGroup);
      if name.Some? {
        if name == ownNorm {
          ownSizes := ownSizes + set size <- sibling.sizes;
        }
        if name.value !in stale && name.value !in trusted {
          trusted := trusted[name.value := None];
        }
      }
    }
    assert votes.siblings[..|votes.siblings|] == votes.siblings;
    if ownNorm.Some? && ownNorm.value != "" {
      trusted := trusted[ownNorm.value := if ownSizes == {} then None else Some(ownSizes)];
    }
  }
}
