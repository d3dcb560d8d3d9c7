/** The stored row of a pending record: written, read back, and fed its guard evidence (manual_import.py,
  * pending_records.py, and the guard read of cache.py). A key a row lacks is None.
  */
module PendingRows {
  import opened Wrappers
  import opened NameFolding
  import opened PendingRecords

  datatype RawNames = RawNames(series: Option<string>, anilist: Option<seq<string>>)

  datatype RawClaim = RawClaim(
    alId: Option<int>,
    seriesId: Option<int>,
    title: Option<string>,
    coverage: Option<string>,
    url: Option<string>,
    orderedEpisodeIds: Option<seq<int>>,
    names: Option<RawNames>,
    preownedEpisodeIds: Option<seq<int>>,
    sliceCoverage: Option<string>,
    claimedAt: Option<string>)

  datatype RawRecord = RawRecord(
    infohash: Option<string>,
    releaseGroup: Option<string>,
    isDualAudio: Option<bool>,
    seadexFiles: Option<seq<string>>,
    addedAt: Option<string>,
    fileEpisodeMap: Option<FileMap>,
    claims: Option<seq<RawClaim>>,
    excludedFiles: Option<seq<string>>,
    releaseSizes: Option<seq<int>>,
    awaitingCleanup: Option<bool>,
    sizesByName: Option<map<string, int>>,
    handImportFiles: Option<seq<string>>)

  function NamesToJson(names: EntryNames): RawNames {
    RawNames(Some(names.series), Some(names.anilist))
  }

  function NamesFromJson(raw: RawNames): EntryNames {
    EntryNames(raw.series.GetOr(""), raw.anilist.GetOr([]))
  }

  /** A claim's row leaves out its guards. */
  function ClaimToJson(c: EntryClaim): RawClaim {
    RawClaim(Some(c.alId), Some(c.seriesId), c.title, c.coverage, c.url, Some(c.orderedEpisodeIds),
             Some(NamesToJson(c.names)), Some(c.preownedEpisodeIds), c.sliceCoverage, Some(c.claimedAt))
  }

  function GuardsOf(guards: map<int, Guards>, alId: int): Guards {
    if alId in guards then guards[alId] else NO_GUARDS
  }

  function ClaimFromJson(raw: RawClaim, guards: map<int, Guards>): EntryClaim {
    var alId := raw.alId.GetOr(0);
    EntryClaim(alId, raw.seriesId.GetOr(0), raw.title, raw.coverage, raw.url, raw.orderedEpisodeIds.GetOr([]),
               NamesFromJson(raw.names.GetOr(RawNames(None, None))), raw.preownedEpisodeIds.GetOr([]),
               raw.sliceCoverage,
               raw.claimedAt.GetOr(""), GuardsOf(guards, alId))
  }

  function ClaimsToJson(claims: seq<EntryClaim>): seq<RawClaim> {
    seq(|claims|, i requires 0 <= i < |claims| => ClaimToJson(claims[i]))
  }

  function ClaimsFromJson(raw: seq<RawClaim>, guards: map<int, Guards>): seq<EntryClaim> {
    seq(|raw|, i requires 0 <= i < |raw| => ClaimFromJson(raw[i], guards))
  }

  function ToJson(r: PendingImport): RawRecord {
    RawRecord(Some(r.infohash), Some(r.releaseGroup), Some(r.isDualAudio), Some(r.seadexFiles), Some(r.addedAt),
              Some(r.fileEpisodeMap), Some(ClaimsToJson(r.claims)), Some(r.excludedFiles), Some(r.releaseSizes),
              Some(r.awaitingCleanup), Some(r.sizesByName), Some(r.handImportFiles))
  }

  function Spellings(m: FileMap): seq<string> {
    seq(|m|, i requires 0 <= i < |m| => m[i].0)
  }

  /** `_unplaced_listed_files`: what a row from before the key was kept left for a hand import. */
  function UnplacedListed(leaf: string -> string, listed: seq<string>, m: FileMap, excluded: seq<string>): seq<string> {
    Lacking(InOrder(leaf, listed), LeavesOf(leaf, Spellings(m)) + LeavesOf(leaf, excluded))
  }

  function FromJson(leaf: string -> string, raw: RawRecord, guards: map<int, Guards>): PendingImport {
    var listed, mapped, excluded := raw.seadexFiles.GetOr([]), raw.fileEpisodeMap.GetOr([]),
      raw.excludedFiles.GetOr([]);
    Fold(leaf, PendingImport(
      raw.infohash.GetOr(""), raw.releaseGroup.GetOr(""), raw.isDualAudio.GetOr(false), listed, raw.addedAt.GetOr(""),
      mapped, ClaimsFromJson(raw.claims.GetOr([]), guards), excluded, raw.releaseSizes.GetOr([]),
      raw.awaitingCleanup.GetOr(false), raw.sizesByName.GetOr(map[]),
      if raw.handImportFiles.Some? then raw.handImportFiles.value else UnplacedListed(leaf, listed, mapped, excluded)))
  }

  /** Each claim carries the guards the table holds for its entry. */
  ghost predicate Hydrated(claims: seq<EntryClaim>, guards: map<int, Guards>) {
    forall i :: 0 <= i < |claims| ==> claims[i].guards == GuardsOf(guards, claims[i].alId)
  }

  /** Persist round trip: reading back what was written rebuilds the record, whatever the record went through. */
  lemma RoundTrip(leaf: string -> string, r: PendingImport, guards: map<int, Guards>)
    requires Idempotent(leaf) && WellFormed(leaf, r)
    ensures FromJson(leaf, ToJson(r), guards) == r <==> Hydrated(r.claims, guards)
  {
    var raw := ClaimsToJson(r.claims);
    var back := ClaimsFromJson(raw, guards);
    forall i | 0 <= i < |r.claims|
      ensures back[i] == r.claims[i].(guards := GuardsOf(guards, r.claims[i].alId))
    {
      assert raw[i] == ClaimToJson(r.claims[i]);
    }
    if Hydrated(r.claims, guards) {
      assert back == r.claims;
    }
    WellFormedStays(leaf, r.(claims := back));
    assert FromJson(leaf, ToJson(r), guards) == r.(claims := back);
  }

  /** A hydrated record is well formed, so it survives being saved and read again under the same guards. */
  lemma HydrationSettles(leaf: string -> string, raw: RawRecord, guards: map<int, Guards>)
    requires Idempotent(leaf)
    ensures WellFormed(leaf, FromJson(leaf, raw, guards))
    ensures FromJson(leaf, ToJson(FromJson(leaf, raw, guards)), guards) == FromJson(leaf, raw, guards)
  {
    var listed, mapped, excluded := raw.seadexFiles.GetOr([]), raw.fileEpisodeMap.GetOr([]),
      raw.excludedFiles.GetOr([]);
    FoldIsWellFormed(leaf, PendingImport(
      raw.infohash.GetOr(""), raw.releaseGroup.GetOr(""), raw.isDualAudio.GetOr(false), listed, raw.addedAt.GetOr(""),
      mapped, ClaimsFromJson(raw.claims.GetOr([]), guards), excluded, raw.releaseSizes.GetOr([]),
      raw.awaitingCleanup.GetOr(false), raw.sizesByName.GetOr(map[]),
      if raw.handImportFiles.Some? then raw.handImportFiles.value else UnplacedListed(leaf, listed, mapped, excluded)));
    RoundTrip(leaf, FromJson(leaf, raw, guards), guards);
  }

  /** A row without the hand-import key accounts for every listed file, but for one whose only map entries hold no
    * real id and which no exclusion names.
    */
  lemma LegacyRowAccounts(leaf: string -> string, raw: RawRecord, guards: map<int, Guards>, listed: string)
    requires Idempotent(leaf) && raw.handImportFiles.None? && listed in raw.seadexFiles.GetOr([])
    ensures
      var name, m := leaf(listed), raw.fileEpisodeMap.GetOr([]);
      StatusOf(FromJson(leaf, raw, guards), name) == Unknown <==>
        && name in LeavesOf(leaf, Spellings(m)) - Placed(leaf, m)
        && name !in LeavesOf(leaf, raw.excludedFiles.GetOr([]))
  {
    var name, m, excluded := leaf(listed), raw.fileEpisodeMap.GetOr([]), raw.excludedFiles.GetOr([]);
    var files := raw.seadexFiles.GetOr([]);
    var hand := UnplacedListed(leaf, files, m, excluded);
    var taken := LeavesOf(leaf, Spellings(m)) + LeavesOf(leaf, excluded);
    var before := PendingImport(
      raw.infohash.GetOr(""), raw.releaseGroup.GetOr(""), raw.isDualAudio.GetOr(false), files, raw.addedAt.GetOr(""),
      m, ClaimsFromJson(raw.claims.GetOr([]), guards), excluded, raw.releaseSizes.GetOr([]),
      raw.awaitingCleanup.GetOr(false), raw.sizesByName.GetOr(map[]), hand);
    var r := FromJson(leaf, raw, guards);
    assert r == Fold(leaf, before);
    FoldedParts(leaf, before);
    InOrderIs(leaf, files);
    LackingFrom(leaf, InOrder(leaf, files), taken);
    SettledLeaves(leaf, hand);
    assert Placed(leaf, m) <= LeavesOf(leaf, Spellings(m)) by {
      forall e | e in m ensures leaf(e.0) in LeavesOf(leaf, Spellings(m)) {
        var i :| 0 <= i < |m| && m[i] == e;
        assert Spellings(m)[i] == e.0;
      }
    }
    assert name in LeavesOf(leaf, files);
    OneStatus(leaf, r, name);
    assert name in r.handImportFiles <==> name in Members(r.handImportFiles);
    assert name in r.excludedFiles <==> name in Members(r.excludedFiles);
  }

  // The guard read.

  function ClaimsIn(raw: RawRecord): seq<RawClaim> {
    raw.claims.GetOr([])
  }

  /** The entries the stored rows' claims name. */
  function LiveIds(stored: seq<RawRecord>): set<int> {
    set raw <- stored, c <- ClaimsIn(raw) | c.alId.Some? :: c.alId.value
  }

  /** `get_guards`: the table's rows for live entries. */
  function LiveGuards(stored: seq<RawRecord>, table: map<int, Guards>): map<int, Guards> {
    map id | id in table && id in LiveIds(stored) :: table[id]
  }

  function Hydrate(leaf: string -> string, rows: seq<RawRecord>, guards: map<int, Guards>): seq<PendingImport> {
    seq(|rows|, i requires 0 <= i < |rows| => FromJson(leaf, rows[i], guards))
  }

  /** A claim without an entry id reads the guards of entry 0, which no such claim makes live. */
  predicate ReadsADeadRow(rows: seq<RawRecord>, stored: seq<RawRecord>, table: map<int, Guards>) {
    && 0 in table && table[0] != NO_GUARDS && 0 !in LiveIds(stored)
    && exists raw <- rows, c <- ClaimsIn(raw) :: c.alId.None?
  }

  lemma ClaimReads(rows: seq<RawRecord>, stored: seq<RawRecord>, table: map<int, Guards>, raw: RawRecord, c: RawClaim)
    requires raw in rows && c in ClaimsIn(raw) && (forall r :: r in rows ==> r in stored)
    ensures ClaimFromJson(c, LiveGuards(stored, table)) == ClaimFromJson(c, table) <==>
            !(c.alId.None? && 0 in table && table[0] != NO_GUARDS && 0 !in LiveIds(stored))
  {
    assert raw in stored;
    assert c.alId.Some? ==> c.alId.value in LiveIds(stored);
  }

  lemma ClaimsSurviveTheFold(leaf: string -> string, raw: RawRecord, guards: map<int, Guards>)
    ensures FromJson(leaf, raw, guards).claims == ClaimsFromJson(ClaimsIn(raw), guards)
    ensures FromJson(leaf, raw, guards) == FromJson(leaf, raw, map[]).(claims := ClaimsFromJson(ClaimsIn(raw), guards))
  {
  }

  /** Hydrating through the live-entry read gives what hydrating through the whole table gives, unless a claim reads
    * a dead row.
    */
  lemma LiveGuardsSufficeIff(leaf: string -> string, rows: seq<RawRecord>, stored: seq<RawRecord>,
                             table: map<int, Guards>)
    requires forall raw :: raw in rows ==> raw in stored
    ensures Hydrate(leaf, rows, LiveGuards(stored, table)) == Hydrate(leaf, rows, table)
            <==> !ReadsADeadRow(rows, stored, table)
  {
    var live := LiveGuards(stored, table);
    var a, b := Hydrate(leaf, rows, live), Hydrate(leaf, rows, table);
    if ReadsADeadRow(rows, stored, table) {
      var raw, c :| raw in rows && c in ClaimsIn(raw) && c.alId.None?;
      ClaimReads(rows, stored, table, raw, c);
      var i :| 0 <= i < |rows| && rows[i] == raw;
      var j :| 0 <= j < |ClaimsIn(raw)| && ClaimsIn(raw)[j] == c;
      ClaimsSurviveTheFold(leaf, raw, live);
      ClaimsSurviveTheFold(leaf, raw, table);
      assert ClaimsFromJson(ClaimsIn(raw), live)[j] != ClaimsFromJson(ClaimsIn(raw), table)[j];
      assert a[i] != b[i];
    } else {
      forall i | 0 <= i < |rows| ensures a[i] == b[i] {
        ClaimsSurviveTheFold(leaf, rows[i], live);
        ClaimsSurviveTheFold(leaf, rows[i], table);
        forall j | 0 <= j < |ClaimsIn(rows[i])|
          ensures ClaimFromJson(ClaimsIn(rows[i])[j], live) == ClaimFromJson(ClaimsIn(rows[i])[j], table)
        {
          ClaimReads(rows, stored, table, rows[i], ClaimsIn(rows[i])[j]);
        }
        assert ClaimsFromJson(ClaimsIn(rows[i]), live) == ClaimsFromJson(ClaimsIn(rows[i]), table);
      }
      assert a == b;
    }
  }

  /** A row the record writes never lacks the id, so records written by it always hydrate alike. */
  lemma WrittenRowsHydrateAlike(leaf: string -> string, records: seq<PendingImport>, rows: seq<RawRecord>,
                                table: map<int, Guards>)
    requires rows == seq(|records|, i requires 0 <= i < |records| => ToJson(records[i]))
    ensures Hydrate(leaf, rows, LiveGuards(rows, table)) == Hydrate(leaf, rows, table)
  {
    forall raw, c | raw in rows && c in ClaimsIn(raw) ensures c.alId.Some? {
    }
    LiveGuardsSufficeIff(leaf, rows, rows, table);
  }
}
