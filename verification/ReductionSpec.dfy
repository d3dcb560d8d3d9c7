/** The same-files reduction on values: which flagged release groups of a listing stay flagged (planner.py).
  *
  * A listing is the release groups in first-seen order; a group is named by its position. `Reduction` runs these
  * steps in place on the url objects.
  */
module ReductionSpec {
  import opened Wrappers

  datatype EpisodeKey = EpisodeKey(season: Option<int>, episode: Option<int>)

  /** One url of a group: `keys` are its placed episodes, `sizes` its file sizes. */
  datatype Url = Url(
    isPublic: bool,
    isFallback: bool,
    keys: set<EpisodeKey>,
    sizes: seq<int>,
    download: bool,
    upgrade: bool)
  {
    /** `flag()`: sets the grab and leaves an upgrade already set alone. */
    function Flagged(): Url {
      this.(download := true)
    }

    /** `unflag()`: the upgrade never outlives the grab. */
    function Unflagged(): Url {
      this.(download := false, upgrade := false)
    }

    /** A url the set will actually obtain: a flagged private one is refused when it is added. */
    predicate Obtains() {
      download && isPublic
    }
  }

  /** `coverage` is what the files were parsed to: None before that, empty if no episode was found. */
  datatype Group = Group(coverage: Option<set<EpisodeKey>>, urls: seq<Url>)

  type Listing = seq<Group>

  datatype Pos = Pos(group: nat, index: nat)

  predicate In(d: Listing, p: Pos) {
    p.group < |d| && p.index < |d[p.group].urls|
  }

  function At(d: Listing, p: Pos): Url
    requires In(d, p)
  {
    d[p.group].urls[p.index]
  }

  /** Whether `p` is a url flagged to grab. */
  predicate Grabs(d: Listing, p: Pos) {
    In(d, p) && At(d, p).download
  }

  predicate IsFlagged(g: Group) {
    exists u :: u in g.urls && u.download
  }

  predicate IsPublicGroup(g: Group) {
    exists u :: u in g.urls && u.isPublic
  }

  predicate IsFallbackGroup(g: Group) {
    exists u :: u in g.urls && u.isFallback
  }

  predicate AllPublic(g: Group) {
    forall u :: u in g.urls ==> u.isPublic
  }

  /** Every flagged url is public, so none is refused when it comes to be added. */
  predicate FlaggedAllAddable(g: Group) {
    forall u :: u in g.urls && u.download ==> u.isPublic
  }

  predicate HasUpgrade(g: Group) {
    exists u :: u in g.urls && u.upgrade
  }

  // The partition into same-files sets.

  /** What a set is keyed by: one shared movie key, a group of its own, or the placed episodes. */
  datatype CoverKey = Movie | Unplaced(group: nat) | Covers(keys: set<EpisodeKey>)

  function KeyOf(d: Listing, i: nat): CoverKey
    requires i < |d|
  {
    if d[i].coverage.None? then Movie
    else if d[i].coverage.value == {} then Unplaced(i)
    else Covers(d[i].coverage.value)
  }

  /** The names are groups of a listing of `n` groups. */
  predicate Named(n: nat, names: seq<nat>) {
    forall i :: 0 <= i < |names| ==> names[i] < n
  }

  /** Every set has members, all of them groups of the listing. */
  predicate AllSound(n: nat, sets: seq<seq<nat>>) {
    forall s :: 0 <= s < |sets| ==> sets[s] != [] && Named(n, sets[s])
  }

  /** The set among `sets` with key `key`, if one is. */
  function FindSet(d: Listing, sets: seq<seq<nat>>, key: CoverKey): (found: Option<nat>)
    requires AllSound(|d|, sets)
    ensures found.Some? ==> found.value < |sets| && KeyOf(d, sets[found.value][0]) == key
    ensures found.None? ==> forall s :: 0 <= s < |sets| ==> KeyOf(d, sets[s][0]) != key
  {
    if sets == [] then None
    else
      var n := |sets| - 1;
      var before := FindSet(d, sets[..n], key);
      if before.Some? then before
      else if KeyOf(d, sets[n][0]) == key then Some(n)
      else None
  }

  /** A set of the first `n` groups: members in order, all with its one key. */
  predicate GoodSet(d: Listing, members: seq<nat>, n: nat)
    requires n <= |d|
  {
    && members != []
    && (forall i :: 0 <= i < |members| ==> members[i] < n)
    && (forall i :: 0 <= i < |members| ==> KeyOf(d, members[i]) == KeyOf(d, members[0]))
    && (forall i, j :: 0 <= i < j < |members| ==> members[i] < members[j])
  }

  predicate Placed(sets: seq<seq<nat>>, g: nat) {
    exists s :: 0 <= s < |sets| && g in sets[s]
  }

  /** What the partition of the first `n` groups is. */
  ghost predicate Partitions(d: Listing, sets: seq<seq<nat>>, n: nat)
    requires n <= |d|
  {
    && (forall s :: 0 <= s < |sets| ==> GoodSet(d, sets[s], n))
    && (forall s, t :: 0 <= s < t < |sets| ==> KeyOf(d, sets[s][0]) != KeyOf(d, sets[t][0]))
    && (forall g: nat :: g < n ==> Placed(sets, g))
  }

  function AddGroup(d: Listing, sets: seq<seq<nat>>, g: nat): (after: seq<seq<nat>>)
    requires g < |d| && AllSound(|d|, sets)
    ensures AllSound(|d|, after)
  {
    var found := FindSet(d, sets, KeyOf(d, g));
    if found.Some? then sets[found.value := sets[found.value] + [g]] else sets + [[g]]
  }

  lemma GoodSetGrows(d: Listing, members: seq<nat>, n: nat)
    requires n < |d| && GoodSet(d, members, n)
    ensures GoodSet(d, members, n + 1)
    ensures KeyOf(d, n) == KeyOf(d, members[0]) ==> GoodSet(d, members + [n], n + 1)
  {
  }

  lemma AddGroupPartitions(d: Listing, sets: seq<seq<nat>>, n: nat, after: seq<seq<nat>>)
    requires n < |d| && AllSound(|d|, sets) && Partitions(d, sets, n) && after == AddGroup(d, sets, n)
    ensures Partitions(d, after, n + 1)
  {
    var found := FindSet(d, sets, KeyOf(d, n));
    var home := if found.Some? then found.value else |sets|;
    forall s | 0 <= s < |after| ensures GoodSet(d, after[s], n + 1) {
      if s < |sets| {
        GoodSetGrows(d, sets[s], n);
      }
    }
    forall g: nat | g < n + 1 ensures Placed(after, g) {
      if g < n {
        assert Placed(sets, g);
        var s :| 0 <= s < |sets| && g in sets[s];
        assert g in after[s];
      } else {
        assert n in after[home];
      }
    }
  }

  function SetsOf(d: Listing, n: nat): (sets: seq<seq<nat>>)
    requires n <= |d|
    ensures AllSound(|d|, sets)
  {
    if n == 0 then [] else AddGroup(d, SetsOf(d, n - 1), n - 1)
  }

  /** The sets partition the groups by key, each group in one set. */
  lemma SetsPartition(d: Listing, n: nat)
    requires n <= |d|
    ensures Partitions(d, SetsOf(d, n), n)
  {
    var sets := PartitionOf(d, n);
  }

  lemma {:induction false} PartitionOf(d: Listing, n: nat) returns (sets: seq<seq<nat>>)
    requires n <= |d|
    ensures sets == SetsOf(d, n) && AllSound(|d|, sets) && Partitions(d, sets, n)
  {
    sets := [];
    if n > 0 {
      var before := PartitionOf(d, n - 1);
      sets := AddGroup(d, before, n - 1);
      AddGroupPartitions(d, before, n - 1, sets);
    }
  }

  /** Two groups share a set exactly when their keys are equal, and no group is in two. */
  lemma SetsAreKeyClasses(d: Listing, s: nat, t: nat, g: nat, h: nat)
    requires
      var sets := SetsOf(d, |d|);
      s < |sets| && t < |sets| && g in sets[s] && h in sets[t]
    ensures s == t <==> KeyOf(d, g) == KeyOf(d, h)
  {
    SetsPartition(d, |d|);
  }

  // Reducing one set.

  /** The members of `names` whose group satisfies `test`, in order. */
  function Where(d: Listing, names: seq<nat>, test: Group -> bool): (found: seq<nat>)
    requires Named(|d|, names)
    ensures Named(|d|, found)
  {
    if names == [] then []
    else
      var before := Where(d, names[..|names| - 1], test);
      var last := names[|names| - 1];
      if test(d[last]) then before + [last] else before
  }

  lemma {:induction false} WhereHolds(d: Listing, names: seq<nat>, test: Group -> bool)
    requires Named(|d|, names)
    ensures forall g :: g in Where(d, names, test) <==> g in names && test(d[g])
  {
    if names != [] {
      WhereHolds(d, names[..|names| - 1], test);
    }
  }

  function FlaggedOf(d: Listing, names: seq<nat>): seq<nat>
    requires Named(|d|, names)
  {
    Where(d, names, IsFlagged)
  }

  /** The first member whose group satisfies `test`. */
  function First(d: Listing, names: seq<nat>, test: Group -> bool): Option<nat>
    requires Named(|d|, names)
  {
    var found := Where(d, names, test);
    if found == [] then None else Some(found[0])
  }

  predicate Promotable(g: Group) {
    !IsFlagged(g) && IsPublicGroup(g) && !IsFallbackGroup(g)
  }

  /** `_promote_public_alternative`: the first fully public candidate, else the first candidate. */
  function Promoted(d: Listing, names: seq<nat>): Option<nat>
    requires Named(|d|, names)
  {
    var candidates := Where(d, names, Promotable);
    var whole := First(d, candidates, AllPublic);
    if whole.Some? then whole else if candidates == [] then None else Some(candidates[0])
  }

  datatype Decision = Promote(group: nat) | DropAll | Keep(group: nat)

  predicate UpgradePending(d: Listing, names: seq<nat>)
    requires Named(|d|, names)
  {
    exists g :: g in FlaggedOf(d, names) && HasUpgrade(d[g])
  }

  function Decide(d: Listing, names: seq<nat>): Decision
    requires Named(|d|, names)
  {
    var publicFlagged := Where(d, FlaggedOf(d, names), IsPublicGroup);
    var promoted := if UpgradePending(d, names) then Promoted(d, names) else None;
    if publicFlagged == [] then
      if promoted.Some? then Promote(promoted.value) else DropAll
    else
      var addable := First(d, publicFlagged, FlaggedAllAddable);
      if addable.Some? then Keep(addable.value)
      else if promoted.Some? then Promote(promoted.value)
      else Keep(publicFlagged[0])
  }

  function UnflaggedUrls(urls: seq<Url>): seq<Url> {
    seq(|urls|, i requires 0 <= i < |urls| => urls[i].Unflagged())
  }

  function UnflaggedGroup(g: Group): Group {
    g.(urls := UnflaggedUrls(g.urls))
  }

  function PromotedUrls(urls: seq<Url>): seq<Url> {
    seq(|urls|, i requires 0 <= i < |urls| => if urls[i].isPublic then urls[i].Flagged() else urls[i])
  }

  function PromotedGroup(g: Group): Group {
    g.(urls := PromotedUrls(g.urls))
  }

  /** Whether the decision drops flagged group `g`. */
  predicate Drops(dec: Decision, g: nat) {
    dec.Promote? || dec.DropAll? || (dec.Keep? && dec.group != g)
  }

  function Decided(d: Listing, names: seq<nat>, dec: Decision, g: nat): Group
    requires g < |d|
  {
    if g !in names then d[g]
    else if dec == Promote(g) then PromotedGroup(d[g])
    else if IsFlagged(d[g]) && Drops(dec, g) then UnflaggedGroup(d[g])
    else d[g]
  }

  function DecidedAll(d: Listing, names: seq<nat>, dec: Decision): (after: Listing)
    ensures |after| == |d|
  {
    seq(|d|, g requires 0 <= g < |d| => Decided(d, names, dec, g))
  }

  function Reduced(d: Listing, names: seq<nat>): (after: Listing)
    requires Named(|d|, names)
    ensures |after| == |d|
  {
    DecidedAll(d, names, Decide(d, names))
  }

  function FlaggedPositions(urls: seq<Url>, group: nat, n: nat): seq<Pos>
    requires n <= |urls|
  {
    if n == 0 then []
    else
      FlaggedPositions(urls, group, n - 1) + (if urls[n - 1].download then [Pos(group, n - 1)] else [])
  }

  lemma {:induction false} FlaggedPositionsHold(urls: seq<Url>, group: nat, n: nat)
    requires n <= |urls|
    ensures forall p :: p in FlaggedPositions(urls, group, n) <==>
      p.group == group && p.index < n && urls[p.index].download
  {
    if n > 0 {
      FlaggedPositionsHold(urls, group, n - 1);
    }
  }

  /** The urls the decision unflags, in the order it meets them. */
  function DroppedOf(d: Listing, flagged: seq<nat>, dec: Decision): seq<Pos>
    requires Named(|d|, flagged)
  {
    if flagged == [] then []
    else
      var last := flagged[|flagged| - 1];
      DroppedOf(d, flagged[..|flagged| - 1], dec)
      + (if Drops(dec, last) then FlaggedPositions(d[last].urls, last, |d[last].urls|) else [])
  }

  lemma {:induction false} DroppedHolds(d: Listing, flagged: seq<nat>, dec: Decision)
    requires Named(|d|, flagged)
    ensures forall p :: p in DroppedOf(d, flagged, dec) <==>
      p.group in flagged && Drops(dec, p.group) && In(d, p) && At(d, p).download
  {
    if flagged != [] {
      var last := flagged[|flagged| - 1];
      DroppedHolds(d, flagged[..|flagged| - 1], dec);
      FlaggedPositionsHold(d[last].urls, last, |d[last].urls|);
    }
  }

  // The coverage rescue.

  function KeysOfUrls(urls: seq<Url>): set<EpisodeKey> {
    set u, k | u in urls && u.Obtains() && k in u.keys :: k
  }

  /** The episodes the set's surviving flagged public urls carry. */
  function SurvivorKeys(d: Listing, names: seq<nat>): set<EpisodeKey>
    requires Named(|d|, names)
  {
    set g, k | g in names && k in KeysOfUrls(d[g].urls) :: k
  }

  function FlagAt(d: Listing, p: Pos): (after: Listing)
    requires In(d, p)
    ensures |after| == |d|
  {
    var g := d[p.group].(urls := d[p.group].urls[p.index := At(d, p).Flagged()]);
    d[p.group := g]
  }

  predicate Rescued(d: Listing, survivors: set<EpisodeKey>, p: Pos)
    requires In(d, p)
  {
    At(d, p).isPublic && !(At(d, p).keys <= survivors)
  }

  /** A listing mid-rescue and the episodes its survivors carry so far. */
  datatype Rescue = Rescue(listing: Listing, survivors: set<EpisodeKey>)

  function RescueAll(d: Listing, survivors: set<EpisodeKey>, dropped: seq<Pos>): (r: Rescue)
    ensures |r.listing| == |d|
  {
    if dropped == [] then Rescue(d, survivors)
    else
      var n := |dropped| - 1;
      var before := RescueAll(d, survivors, dropped[..n]);
      var p := dropped[n];
      if In(before.listing, p) && Rescued(before.listing, before.survivors, p) then
        Rescue(FlagAt(before.listing, p), before.survivors + At(before.listing, p).keys)
      else
        before
  }

  /** One whole set: reduce, then rescue. A set with nothing flagged is left alone. */
  function SetReduced(d: Listing, names: seq<nat>): (after: Listing)
    requires Named(|d|, names)
    ensures |after| == |d|
  {
    if FlaggedOf(d, names) == [] then d
    else
      var reduced := Reduced(d, names);
      var dropped := DroppedOf(d, FlaggedOf(d, names), Decide(d, names));
      RescueAll(reduced, SurvivorKeys(reduced, names), dropped).listing
  }

  /** The first `n` sets in turn. */
  function SetsReduced(d: Listing, sets: seq<seq<nat>>, n: nat): (after: Listing)
    requires n <= |sets|
    requires AllSound(|d|, sets)
    ensures |after| == |d|
  {
    if n == 0 then d
    else SetReduced(SetsReduced(d, sets, n - 1), sets[n - 1])
  }

  function SameFilesPhase(d: Listing): (after: Listing)
    ensures |after| == |d|
  {
    SetsReduced(d, SetsOf(d, |d|), |SetsOf(d, |d|)|)
  }

  // The de-duplication inside one group.

  /** Two listings of one group carry the same files: equal non-empty size multisets. */
  predicate SameFiles(a: Url, b: Url) {
    a.sizes != [] && multiset(a.sizes) == multiset(b.sizes)
  }

  /** Url `i` repeats an earlier flagged url's files. */
  predicate Repeats(urls: seq<Url>, i: nat)
    requires i < |urls|
  {
    urls[i].download && exists j :: 0 <= j < i && urls[j].download && SameFiles(urls[i], urls[j])
  }

  function DedupedUrls(urls: seq<Url>): seq<Url> {
    seq(|urls|, i requires 0 <= i < |urls| => if Repeats(urls, i) then urls[i].Unflagged() else urls[i])
  }

  function Deduped(d: Listing): Listing {
    seq(|d|, g requires 0 <= g < |d| => d[g].(urls := DedupedUrls(d[g].urls)))
  }

  /** `reduce_overlapping_downloads`: hand-picked releases are left alone. */
  function ReducedListing(d: Listing, interactive: bool): Listing {
    if interactive then d else Deduped(SameFilesPhase(d))
  }

  // What a set's reduction reports.

  datatype Reason = StandsIn(group: nat, remaining: bool) | FallbackOwned | StaleHeld | NoPublic | FellBack(group: nat)

  datatype Notice = Notice(groups: seq<nat>, reason: Reason, warning: bool)

  datatype Skips = Skips(
    skipped: bool,
    groups: seq<nat>,
    notices: seq<Notice>,
    staleHeld: bool,
    fallbackCovered: bool)

  const NO_SKIPS := Skips(false, [], [], false, false)

  function PrivateGroups(d: Listing, names: seq<nat>): seq<nat>
    requires Named(|d|, names)
  {
    Where(d, names, g => !IsPublicGroup(g))
  }

  /** What giving a set up adds to the skips. */
  function GivenUp(flagged: seq<nat>, pending: bool, fallbackRides: bool, skips: Skips): Skips {
    if !pending && fallbackRides then
      skips.(fallbackCovered := true, notices := skips.notices + [Notice(flagged, FallbackOwned, false)])
    else
      Skips(true, skips.groups + flagged,
            skips.notices + [Notice(flagged, if fallbackRides then StaleHeld else NoPublic, true)],
            skips.staleHeld || fallbackRides, skips.fallbackCovered)
  }

  /** What reducing the set adds to the skips. */
  function Reported(d: Listing, names: seq<nat>, skips: Skips): Skips
    requires Named(|d|, names)
  {
    ReportedFor(d, names, Decide(d, names), skips)
  }

  function ReportedFor(d: Listing, names: seq<nat>, dec: Decision, skips: Skips): Skips
    requires Named(|d|, names) && (dec.Keep? ==> dec.group < |d|)
  {
    var flagged := FlaggedOf(d, names);
    var fallbackRides := exists g :: g in names && IsFallbackGroup(d[g]);
    match dec
    case Promote(g) =>
      var remaining := Where(d, flagged, IsPublicGroup) != [];
      skips.(notices := skips.notices + [Notice(flagged, StandsIn(g, remaining), false)])
    case DropAll =>
      GivenUp(flagged, UpgradePending(d, names), fallbackRides, skips)
    case Keep(k) =>
      NotedFallback(d, flagged, k, skips.(staleHeld := skips.staleHeld || StaleKept(d, names, k)))
  }

  /** The keeper had no public stand-in, and the set holds an unflagged fallback: a copy already owned, to be left. */
  predicate StaleKept(d: Listing, names: seq<nat>, k: nat)
    requires Named(|d|, names) && k < |d|
  {
    !FlaggedAllAddable(d[k]) && UpgradePending(d, names) && RidesUnflagged(d, names)
  }

  predicate RidesUnflagged(d: Listing, names: seq<nat>)
    requires Named(|d|, names)
  {
    exists g :: g in names && !IsFlagged(d[g]) && IsFallbackGroup(d[g])
  }

  /** Notes a fallback kept in place of private groups. */
  function NotedFallback(d: Listing, flagged: seq<nat>, k: nat, skips: Skips): Skips
    requires Named(|d|, flagged) && k < |d|
  {
    var private := PrivateGroups(d, flagged);
    if private != [] && IsFallbackGroup(d[k]) then
      skips.(notices := skips.notices + [Notice(private, FellBack(k), false)])
    else
      skips
  }

  /** What a set's turn reports: a set with nothing flagged reports nothing. */
  function TurnReported(d: Listing, names: seq<nat>, skips: Skips): Skips
    requires Named(|d|, names)
  {
    if FlaggedOf(d, names) == [] then skips else Reported(d, names, skips)
  }

  /** What the first `n` sets' turns report, one after the other. */
  function SetsReported(d: Listing, sets: seq<seq<nat>>, n: nat, skips: Skips): Skips
    requires n <= |sets| && AllSound(|d|, sets)
  {
    if n == 0 then skips
    else TurnReported(SetsReduced(d, sets, n - 1), sets[n - 1], SetsReported(d, sets, n - 1, skips))
  }

  /** The skips the whole call returns. */
  function CallReported(d: Listing, interactive: bool): Skips {
    if interactive then NO_SKIPS else SetsReported(d, SetsOf(d, |d|), |SetsOf(d, |d|)|, NO_SKIPS)
  }
}
