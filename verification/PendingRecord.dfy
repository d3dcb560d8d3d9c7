/** The pending-import record: one torrent's file map and its entries' claims (manual_import.py).
  *
  * A dict whose order shows is the sequence of its items. `leaf` is the name folding (`normalized_leaf`), which
  * settles a name in one go; a stored row is a raw row whose missing keys are None.
  */
module PendingRecords {
  import opened Wrappers
  import opened NameFolding

  type FileMap = IdMap<string>

  datatype OwnGroup = OwnGroup(releaseGroup: string, sizes: seq<int>)

  datatype Guards = Guards(entryGroups: seq<string>, staleGroups: seq<string>, ownedEpisodes: seq<(int, int)>)

  const NO_GUARDS := Guards([], [], [])

  datatype EntryNames = EntryNames(series: string, anilist: seq<string>)

  datatype EntryClaim = EntryClaim(
    alId: int,
    seriesId: int,
    title: Option<string>,
    coverage: Option<string>,
    url: Option<string>,
    orderedEpisodeIds: seq<int>,
    names: EntryNames,
    preownedEpisodeIds: seq<int>,
    sliceCoverage: Option<string>,
    claimedAt: string,
    guards: Guards)

  datatype PendingImport = PendingImport(
    infohash: string,
    releaseGroup: string,
    isDualAudio: bool,
    seadexFiles: seq<string>,
    addedAt: string,
    fileEpisodeMap: FileMap,
    claims: seq<EntryClaim>,
    excludedFiles: seq<string>,
    releaseSizes: seq<int>,
    awaitingCleanup: bool,
    sizesByName: map<string, int>,
    handImportFiles: seq<string>)

  // Building the record.

  /** Every spelling of the name's leaf gives the name's size. */
  predicate Agreed(leaf: string -> string, sizes: map<string, int>, name: string)
    requires name in sizes
  {
    forall other <- sizes.Keys :: leaf(other) == leaf(name) ==> sizes[other] == sizes[name]
  }

  /** `_normalized_keys`: a name whose spellings disagree is dropped. */
  function NormalizedKeys(leaf: string -> string, sizes: map<string, int>): map<string, int> {
    map name <- sizes.Keys | Agreed(leaf, sizes, name) :: leaf(name) := sizes[name]
  }

  /** `__post_init__`. */
  function Fold(leaf: string -> string, r: PendingImport): PendingImport {
    var mapped := NormalizedMap(leaf, r.fileEpisodeMap);
    var hand := Lacking(InOrder(leaf, r.handImportFiles), NamesIn(mapped));
    r.(fileEpisodeMap := mapped,
       handImportFiles := hand,
       excludedFiles := Lacking(InOrder(leaf, r.excludedFiles), NamesIn(mapped) + Members(hand)),
       sizesByName := NormalizedKeys(leaf, r.sizesByName))
  }

  /** What the fold promises its readers: settled names, each in one place only. */
  ghost predicate WellFormed(leaf: string -> string, r: PendingImport) {
    && SettledMap(leaf, r.fileEpisodeMap)
    && SettledNames(leaf, r.handImportFiles)
    && SettledNames(leaf, r.excludedFiles)
    && Members(r.handImportFiles) !! NamesIn(r.fileEpisodeMap)
    && Members(r.excludedFiles) !! NamesIn(r.fileEpisodeMap)
    && Members(r.excludedFiles) !! Members(r.handImportFiles)
    && (forall name :: name in r.sizesByName ==> leaf(name) == name)
  }

  lemma FoldedNames(leaf: string -> string, r: PendingImport)
    requires Idempotent(leaf)
    ensures
      var f, placed := Fold(leaf, r), Placed(leaf, r.fileEpisodeMap);
      && NamesIn(f.fileEpisodeMap) == placed
      && Members(f.handImportFiles) == LeavesOf(leaf, r.handImportFiles) - placed
      && Members(f.excludedFiles) == LeavesOf(leaf, r.excludedFiles) - placed - Members(f.handImportFiles)
  {
    var mapped := NormalizedMap(leaf, r.fileEpisodeMap);
    NormalizedNames(leaf, r.fileEpisodeMap);
    InOrderIs(leaf, r.handImportFiles);
    InOrderIs(leaf, r.excludedFiles);
    LackingFrom(leaf, InOrder(leaf, r.handImportFiles), NamesIn(mapped));
    var hand := Lacking(InOrder(leaf, r.handImportFiles), NamesIn(mapped));
    LackingFrom(leaf, InOrder(leaf, r.excludedFiles), NamesIn(mapped) + Members(hand));
  }

  /** Building a record makes it well formed. */
  lemma FoldIsWellFormed(leaf: string -> string, r: PendingImport)
    requires Idempotent(leaf)
    ensures WellFormed(leaf, Fold(leaf, r))
  {
    var mapped := NormalizedMap(leaf, r.fileEpisodeMap);
    NormalizedMapHolds(leaf, r.fileEpisodeMap, |r.fileEpisodeMap|);
    InOrderIs(leaf, r.handImportFiles);
    InOrderIs(leaf, r.excludedFiles);
    LackingFrom(leaf, InOrder(leaf, r.handImportFiles), NamesIn(mapped));
    var hand := Lacking(InOrder(leaf, r.handImportFiles), NamesIn(mapped));
    LackingFrom(leaf, InOrder(leaf, r.excludedFiles), NamesIn(mapped) + Members(hand));
    forall name | name in NormalizedKeys(leaf, r.sizesByName) ensures leaf(name) == name {
      var spelled :| spelled in r.sizesByName && leaf(spelled) == name;
      assert Settles(leaf, spelled);
    }
  }

  /** A well-formed record is built as it is, so the fold is a projection onto the well-formed records. */
  lemma WellFormedStays(leaf: string -> string, r: PendingImport)
    requires Idempotent(leaf) && WellFormed(leaf, r)
    ensures Fold(leaf, r) == r
  {
    SettledMapIs(leaf, r.fileEpisodeMap);
    InOrderStays(leaf, r.handImportFiles, |r.handImportFiles|);
    InOrderStays(leaf, r.excludedFiles, |r.excludedFiles|);
    LackingStays(r.handImportFiles, NamesIn(r.fileEpisodeMap), |r.handImportFiles|);
    LackingStays(r.excludedFiles, NamesIn(r.fileEpisodeMap) + Members(r.handImportFiles), |r.excludedFiles|);
    assert r.handImportFiles[..|r.handImportFiles|] == r.handImportFiles;
    assert r.excludedFiles[..|r.excludedFiles|] == r.excludedFiles;
    assert NormalizedKeys(leaf, r.sizesByName) == r.sizesByName;
  }

  // Changing the record.

  datatype Change =
    | Placements(placed: FileMap)
    | Exclusions(names: seq<string>)
    | HandImports(names: seq<string>)

  /** `with_placements`, `with_exclusions` and `with_hand_import_files`. */
  function With(leaf: string -> string, r: PendingImport, change: Change): PendingImport {
    match change
    case Placements(placed) => Fold(leaf, r.(fileEpisodeMap := JoinedMap(r.fileEpisodeMap, placed)))
    case Exclusions(names) => Fold(leaf, r.(excludedFiles := r.excludedFiles + names))
    case HandImports(names) => Fold(leaf, r.(handImportFiles := r.handImportFiles + names))
  }

  function WithAll(leaf: string -> string, r: PendingImport, changes: seq<Change>): PendingImport {
    if changes == [] then r
    else With(leaf, WithAll(leaf, r, changes[..|changes| - 1]), changes[|changes| - 1])
  }

  // The status lattice.

  datatype FileStatus = Unknown | Excluded | ForHand | Mapped {
    function Rank(): int {
      match this
      case Unknown => 0
      case Excluded => 1
      case ForHand => 2
      case Mapped => 3
    }
  }

  function StatusOf(r: PendingImport, name: string): FileStatus {
    if name in NamesIn(r.fileEpisodeMap) then Mapped
    else if name in r.handImportFiles then ForHand
    else if name in r.excludedFiles then Excluded
    else Unknown
  }

  /** In a well-formed record a name is in one of the three places at most, so its status is the only one. */
  lemma OneStatus(leaf: string -> string, r: PendingImport, name: string)
    requires WellFormed(leaf, r)
    ensures name in NamesIn(r.fileEpisodeMap) <==> StatusOf(r, name) == Mapped
    ensures name in r.handImportFiles <==> StatusOf(r, name) == ForHand
    ensures name in r.excludedFiles <==> StatusOf(r, name) == Excluded
  {
    assert name in r.handImportFiles <==> name in Members(r.handImportFiles);
    assert name in r.excludedFiles <==> name in Members(r.excludedFiles);
  }

  /** The names a change speaks of, by the status it asks for. */
  function Asks(leaf: string -> string, change: Change, status: FileStatus): set<string> {
    match (change, status)
    case (Placements(m), Mapped) => Placed(leaf, m)
    case (HandImports(names), ForHand) => LeavesOf(leaf, names)
    case (Exclusions(names), Excluded) => LeavesOf(leaf, names)
    case _ => {}
  }

  function AllAsk(leaf: string -> string, changes: seq<Change>, status: FileStatus): set<string> {
    set c <- changes, n <- Asks(leaf, c, status) :: n
  }

  function Higher(a: FileStatus, b: FileStatus): FileStatus {
    if a.Rank() < b.Rank() then b else a
  }

  /** The highest status asked for a name. */
  function Highest(leaf: string -> string, changes: seq<Change>, name: string): FileStatus {
    if name in AllAsk(leaf, changes, Mapped) then Mapped
    else if name in AllAsk(leaf, changes, ForHand) then ForHand
    else if name in AllAsk(leaf, changes, Excluded) then Excluded
    else Unknown
  }

  /** The names a record holds in each of its three places. */
  datatype Parts = Parts(mapped: set<string>, forHand: set<string>, excluded: set<string>)

  function PartsOf(r: PendingImport): Parts {
    Parts(NamesIn(r.fileEpisodeMap), Members(r.handImportFiles), Members(r.excludedFiles))
  }

  lemma FoldedParts(leaf: string -> string, r: PendingImport)
    requires Idempotent(leaf)
    ensures
      var placed := Placed(leaf, r.fileEpisodeMap);
      var forHand := LeavesOf(leaf, r.handImportFiles) - placed;
      PartsOf(Fold(leaf, r)) == Parts(placed, forHand, LeavesOf(leaf, r.excludedFiles) - placed - forHand)
    ensures WellFormed(leaf, Fold(leaf, r))
  {
    FoldedNames(leaf, r);
    FoldIsWellFormed(leaf, r);
  }

  lemma SettledParts(leaf: string -> string, r: PendingImport)
    requires WellFormed(leaf, r)
    ensures Placed(leaf, r.fileEpisodeMap) == NamesIn(r.fileEpisodeMap)
    ensures LeavesOf(leaf, r.handImportFiles) == Members(r.handImportFiles)
    ensures LeavesOf(leaf, r.excludedFiles) == Members(r.excludedFiles)
  {
    SettledLeaves(leaf, r.handImportFiles);
    SettledLeaves(leaf, r.excludedFiles);
    NormalizedNames(leaf, r.fileEpisodeMap);
    SettledMapIs(leaf, r.fileEpisodeMap);
  }

  /** What one change makes of the parts. */
  function Lifted(leaf: string -> string, parts: Parts, change: Change): Parts {
    var mapped := parts.mapped + Asks(leaf, change, Mapped);
    var forHand := (parts.forHand + Asks(leaf, change, ForHand)) - mapped;
    Parts(mapped, forHand, (parts.excluded + Asks(leaf, change, Excluded)) - mapped - forHand)
  }

  lemma PlacementParts(leaf: string -> string, r: PendingImport, change: Change)
    requires change.Placements?
    requires Idempotent(leaf) && WellFormed(leaf, r)
    ensures WellFormed(leaf, With(leaf, r, change))
    ensures PartsOf(With(leaf, r, change)) == Lifted(leaf, PartsOf(r), change)
  {
    SettledParts(leaf, r);
    var joined := JoinedMap(r.fileEpisodeMap, change.placed);
    var changed := r.(fileEpisodeMap := joined);
    FoldedParts(leaf, changed);
    JoinedPlaces(leaf, r.fileEpisodeMap, change.placed);
    assert Placed(leaf, changed.fileEpisodeMap) == NamesIn(r.fileEpisodeMap) + Asks(leaf, change, Mapped);
  }

  lemma ExclusionParts(leaf: string -> string, r: PendingImport, change: Change)
    requires change.Exclusions?
    requires Idempotent(leaf) && WellFormed(leaf, r)
    ensures WellFormed(leaf, With(leaf, r, change))
    ensures PartsOf(With(leaf, r, change)) == Lifted(leaf, PartsOf(r), change)
  {
    SettledParts(leaf, r);
    FoldedParts(leaf, r.(excludedFiles := r.excludedFiles + change.names));
    LeavesOfConcat(leaf, r.excludedFiles, change.names);
  }

  lemma HandImportParts(leaf: string -> string, r: PendingImport, change: Change)
    requires change.HandImports?
    requires Idempotent(leaf) && WellFormed(leaf, r)
    ensures WellFormed(leaf, With(leaf, r, change))
    ensures PartsOf(With(leaf, r, change)) == Lifted(leaf, PartsOf(r), change)
  {
    SettledParts(leaf, r);
    FoldedParts(leaf, r.(handImportFiles := r.handImportFiles + change.names));
    LeavesOfConcat(leaf, r.handImportFiles, change.names);
  }

  lemma WithParts(leaf: string -> string, r: PendingImport, change: Change)
    requires Idempotent(leaf) && WellFormed(leaf, r)
    ensures WellFormed(leaf, With(leaf, r, change))
    ensures PartsOf(With(leaf, r, change)) == Lifted(leaf, PartsOf(r), change)
  {
    match change
    case Placements(_) => PlacementParts(leaf, r, change);
    case Exclusions(_) => ExclusionParts(leaf, r, change);
    case HandImports(_) => HandImportParts(leaf, r, change);
  }

  lemma OneAsks(leaf: string -> string, change: Change, status: FileStatus)
    ensures AllAsk(leaf, [change], status) == Asks(leaf, change, status)
  {
    assert change in [change];
  }

  /** One change lifts a name to the status it asks for, if that is higher, and never lowers one. */
  lemma WithLifts(leaf: string -> string, r: PendingImport, change: Change, name: string)
    requires Idempotent(leaf) && WellFormed(leaf, r)
    ensures WellFormed(leaf, With(leaf, r, change))
    ensures StatusOf(With(leaf, r, change), name) == Higher(StatusOf(r, name), Highest(leaf, [change], name))
  {
    WithParts(leaf, r, change);
    OneStatus(leaf, r, name);
    OneStatus(leaf, With(leaf, r, change), name);
    OneAsks(leaf, change, Mapped);
    OneAsks(leaf, change, ForHand);
    OneAsks(leaf, change, Excluded);
    var after := With(leaf, r, change);
    assert name in after.handImportFiles <==> name in Members(after.handImportFiles);
    assert name in after.excludedFiles <==> name in Members(after.excludedFiles);
    assert name in r.handImportFiles <==> name in Members(r.handImportFiles);
    assert name in r.excludedFiles <==> name in Members(r.excludedFiles);
  }

  lemma HighestOfOneMore(leaf: string -> string, changes: seq<Change>, change: Change, name: string)
    ensures Highest(leaf, changes + [change], name) ==
      Higher(Highest(leaf, changes, name), Highest(leaf, [change], name))
  {
    forall status
      ensures AllAsk(leaf, changes + [change], status) == AllAsk(leaf, changes, status) + AllAsk(leaf, [change], status)
    {
      assert forall c :: c in changes + [change] <==> c in changes || c in [change];
    }
  }

  lemma NothingAsked(leaf: string -> string, name: string)
    ensures Highest(leaf, [], name) == Unknown
  {
  }

  /** Lifting twice lifts to the higher. */
  lemma LiftsAddUp(a: FileStatus, b: FileStatus, c: FileStatus)
    ensures Higher(Higher(a, b), c) == Higher(a, Higher(b, c)) && Higher(a, Unknown) == a
  {
  }

  /** One more change, after any. */
  lemma OneMoreLifts(leaf: string -> string, first: FileStatus, before: PendingImport, changes: seq<Change>,
                     change: Change, name: string)
    requires Idempotent(leaf) && WellFormed(leaf, before)
    requires StatusOf(before, name) == Higher(first, Highest(leaf, changes, name))
    ensures WellFormed(leaf, With(leaf, before, change))
    ensures StatusOf(With(leaf, before, change), name) == Higher(first, Highest(leaf, changes + [change], name))
  {
    WithLifts(leaf, before, change, name);
    HighestOfOneMore(leaf, changes, change, name);
    LiftsAddUp(first, Highest(leaf, changes, name), Highest(leaf, [change], name));
  }

  lemma {:induction false} StatusAfter(leaf: string -> string, r: PendingImport, changes: seq<Change>, name: string)
    returns (after: PendingImport)
    requires Idempotent(leaf) && WellFormed(leaf, r)
    ensures after == WithAll(leaf, r, changes) && WellFormed(leaf, after)
    ensures StatusOf(after, name) == Higher(StatusOf(r, name), Highest(leaf, changes, name))
  {
    after := r;
    if changes == [] {
      NothingAsked(leaf, name);
      LiftsAddUp(StatusOf(r, name), Unknown, Unknown);
    } else {
      var n := |changes| - 1;
      var before := StatusAfter(leaf, r, changes[..n], name);
      after := With(leaf, before, changes[n]);
      assert changes == changes[..n] + [changes[n]];
      OneMoreLifts(leaf, StatusOf(r, name), before, changes[..n], changes[n], name);
    }
  }

  /** After any changes a name's status is the highest of its old one and every one asked for it. */
  lemma StatusIsTheHighestAsked(leaf: string -> string, r: PendingImport, changes: seq<Change>, name: string)
    requires Idempotent(leaf) && WellFormed(leaf, r)
    ensures WellFormed(leaf, WithAll(leaf, r, changes))
    ensures StatusOf(WithAll(leaf, r, changes), name) == Higher(StatusOf(r, name), Highest(leaf, changes, name))
  {
    var after := StatusAfter(leaf, r, changes, name);
  }

  lemma SameAsked(leaf: string -> string, a: seq<Change>, b: seq<Change>, name: string)
    requires forall c :: c in a <==> c in b
    ensures Highest(leaf, a, name) == Highest(leaf, b, name)
  {
    forall status ensures AllAsk(leaf, a, status) == AllAsk(leaf, b, status) {
    }
  }

  /** The final partition does not depend on the order of the changes. */
  lemma PartitionIgnoresOrder(leaf: string -> string, r: PendingImport, a: seq<Change>, b: seq<Change>, name: string)
    requires Idempotent(leaf) && WellFormed(leaf, r) && multiset(a) == multiset(b)
    ensures StatusOf(WithAll(leaf, r, a), name) == StatusOf(WithAll(leaf, r, b), name)
  {
    StatusIsTheHighestAsked(leaf, r, a, name);
    StatusIsTheHighestAsked(leaf, r, b, name);
    forall c ensures c in a <==> c in b {
      assert c in a <==> c in multiset(a);
    }
    SameAsked(leaf, a, b, name);
  }

  /** A map joined onto a settled one, once normalized, gives each name of it the ids it had. */
  lemma JoinedKeepsIds(leaf: string -> string, base: FileMap, added: FileMap, name: string)
    requires SettledMap(leaf, base) && name in NamesIn(base)
    ensures Get(NormalizedMap(leaf, JoinedMap(base, added)), name) == Get(base, name)
  {
    var joined := JoinedMap(base, added);
    JoinedKeepsBase(base, added, |added|);
    assert joined[..|base|] == base;
    NormalizedKeepsPrefix(leaf, joined, |base|);
    assert NormalizedMap(leaf, joined)[..|base|] == base;
    GetOfPrefix(NormalizedMap(leaf, joined), |base|, name);
  }

  lemma WithKeepsIds(leaf: string -> string, r: PendingImport, change: Change, name: string)
    requires WellFormed(leaf, r) && name in NamesIn(r.fileEpisodeMap)
    ensures Get(With(leaf, r, change).fileEpisodeMap, name) == Get(r.fileEpisodeMap, name)
  {
    if change.Placements? {
      JoinedKeepsIds(leaf, r.fileEpisodeMap, change.placed, name);
    } else {
      SettledMapIs(leaf, r.fileEpisodeMap);
    }
  }

  /** A mapped name keeps its ids through any changes. */
  lemma {:induction false} MappedIdsStay(leaf: string -> string, r: PendingImport, changes: seq<Change>, name: string)
    requires Idempotent(leaf) && WellFormed(leaf, r) && name in NamesIn(r.fileEpisodeMap)
    ensures Get(WithAll(leaf, r, changes).fileEpisodeMap, name) == Get(r.fileEpisodeMap, name)
  {
    if changes != [] {
      var before := WithAll(leaf, r, changes[..|changes| - 1]);
      MappedIdsStay(leaf, r, changes[..|changes| - 1], name);
      StatusIsTheHighestAsked(leaf, r, changes[..|changes| - 1], name);
      WithKeepsIds(leaf, before, changes[|changes| - 1], name);
    }
  }
}
