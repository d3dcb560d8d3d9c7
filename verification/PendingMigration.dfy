/** From v4 rows to v5 records: all rows of a torrent become one, which claims each of them (cache.py).
  *
  * `parse` reads a stamp as a moment and `stampOf` writes one; `lower` folds an infohash. The rows come as the query
  * orders them: those of one torrent by the table's AniList id column.
  */
module PendingMigration {
  import opened Wrappers
  import opened NameFolding
  import opened PendingRecords
  import opened PendingRows
  import opened SortedIds
  import opened Grouping

  /** One old row: the AniList id of its table column, then its stored dict narrowed, whose own id may differ (a dict
    * without one reads 0).
    */
  datatype RowV4 = RowV4(
    column: int,
    alId: int,
    seriesId: int,
    title: Option<string>,
    coverage: Option<string>,
    url: Option<string>,
    orderedEpisodeIds: seq<int>,
    names: RawNames,
    preownedEpisodeIds: seq<int>,
    sliceCoverage: Option<string>,
    addedAt: string,
    releaseGroup: string,
    isDualAudio: bool,
    seadexFiles: seq<string>,
    releaseSizes: seq<int>,
    fileEpisodeMap: FileMap,
    episodeIds: seq<int>,
    excludedFiles: seq<string>,
    awaitingCleanup: bool)

  datatype Key = Key(arr: string, infohash: string)

  datatype StoredV4 = StoredV4(arr: string, infohash: string, row: RowV4)

  function KeyOf(lower: string -> string, s: StoredV4): Key {
    Key(s.arr, lower(s.infohash))
  }

  // One row's claim.

  function MapIds(m: FileMap): seq<int> {
    if m == [] then [] else m[0].1 + MapIds(m[1..])
  }

  /** The row's window; a row from before the window derives one. */
  function Window(row: RowV4): seq<int> {
    if row.orderedEpisodeIds == [] && row.episodeIds != [] then
      Sorted(Nonzero(MapIds(row.fileEpisodeMap) + row.episodeIds))
    else row.orderedEpisodeIds
  }

  function ClaimOf(row: RowV4): RawClaim {
    RawClaim(Some(row.alId), Some(row.seriesId), row.title, row.coverage, row.url, Some(Window(row)), Some(row.names),
             Some(row.preownedEpisodeIds), row.sliceCoverage, Some(row.addedAt))
  }

  /** A derived window holds each real id of the map and of the legacy list once, in order. */
  lemma DerivedWindow(row: RowV4)
    requires row.orderedEpisodeIds == [] && row.episodeIds != []
    ensures Increasing(Window(row))
    ensures forall x :: x in Window(row) <==> x != 0 && (x in MapIds(row.fileEpisodeMap) || x in row.episodeIds)
  {
    var ids := MapIds(row.fileEpisodeMap) + row.episodeIds;
    SortedHolds(Nonzero(ids));
    NonzeroIs(ids);
  }

  // One torrent's rows.

  function Claims(rows: seq<RowV4>): seq<RawClaim> {
    seq(|rows|, i requires 0 <= i < |rows| => ClaimOf(rows[i]))
  }

  /** The maps unioned, the first row of a name keeping it. */
  function Unioned(rows: seq<RowV4>): FileMap {
    if rows == [] then [] else JoinedAll(Unioned(rows[..|rows| - 1]), rows[|rows| - 1].fileEpisodeMap)
  }

  /** `setdefault` for each entry. */
  function JoinedAll(m: FileMap, added: FileMap): FileMap {
    if added == [] then m
    else
      var before, last := JoinedAll(m, added[..|added| - 1]), added[|added| - 1];
      if last.0 in NamesIn(before) then before else before + [last]
  }

  function AllExcluded(rows: seq<RowV4>): seq<string> {
    if rows == [] then [] else AllExcluded(rows[..|rows| - 1]) + rows[|rows| - 1].excludedFiles
  }

  function Once(names: seq<string>): seq<string> {
    InOrder(n => n, names)
  }

  /** The smallest and the largest moment among some stamps. */
  function Earliest(parse: string -> Option<int>, stamps: seq<string>): Option<int> {
    if stamps == [] then None
    else
      var before, last := Earliest(parse, stamps[..|stamps| - 1]), parse(stamps[|stamps| - 1]);
      if before.None? then last else if last.Some? && last.value < before.value then last else before
  }

  function Latest(parse: string -> Option<int>, stamps: seq<string>): Option<int> {
    if stamps == [] then None
    else
      var before, last := Latest(parse, stamps[..|stamps| - 1]), parse(stamps[|stamps| - 1]);
      if before.None? then last else if last.Some? && last.value > before.value then last else before
  }

  function Stamps(rows: seq<RowV4>): seq<string> {
    seq(|rows|, i requires 0 <= i < |rows| => rows[i].addedAt)
  }

  /** `newest_claimed_at_of`: the TTL clock of a stored row. */
  function NewestClaimedAt(parse: string -> Option<int>, raw: RawRecord): Option<int> {
    var claims := ClaimsIn(raw);
    Latest(parse, seq(|claims|, i requires 0 <= i < |claims| => claims[i].claimedAt.GetOr("")))
  }

  /** `_fold_v4_rows`. */
  function Folded(parse: string -> Option<int>, stampOf: int -> string, infohash: string, rows: seq<RowV4>): RawRecord
    requires rows != []
  {
    var born, map5 := Earliest(parse, Stamps(rows)), Unioned(rows);
    RawRecord(Some(infohash), Some(rows[0].releaseGroup), Some(rows[0].isDualAudio), Some(rows[0].seadexFiles),
              Some(if born.Some? then stampOf(born.value) else ""), Some(map5), Some(Claims(rows)),
              Some(Once(Lacking(AllExcluded(rows), NamesIn(map5)))), Some(rows[0].releaseSizes),
              Some(forall i :: 0 <= i < |rows| ==> rows[i].awaitingCleanup), None, None)
  }

  /** The fold as its loops over the rows. */
  method FoldV4Rows(parse: string -> Option<int>, stampOf: int -> string, infohash: string, rows: seq<RowV4>)
    returns (raw: RawRecord)
    requires rows != []
    ensures raw == Folded(parse, stampOf, infohash, rows)
  {
    var first := rows[0];
    var born := FirstMoment(parse, Stamps(rows));
    var map5: FileMap := [];
    for i := 0 to |rows|
      invariant map5 == Unioned(rows[..i])
    {
      assert rows[..i + 1][..i] == rows[..i];
      map5 := SetDefaults(map5, rows[i].fileEpisodeMap);
    }
    assert rows[..|rows|] == rows;
    var excluded := Once(Lacking(AllExcluded(rows), NamesIn(map5)));
    var cleanup := forall i :: 0 <= i < |rows| ==> rows[i].awaitingCleanup;
    raw := RawRecord(Some(infohash), Some(first.releaseGroup), Some(first.isDualAudio), Some(first.seadexFiles),
                     Some(if born.Some? then stampOf(born.value) else ""), Some(map5), Some(Claims(rows)),
                     Some(excluded), Some(first.releaseSizes), Some(cleanup), None, None);
  }

  method FirstMoment(parse: string -> Option<int>, stamps: seq<string>) returns (born: Option<int>)
    ensures born == Earliest(parse, stamps)
  {
    born := None;
    for i := 0 to |stamps|
      invariant born == Earliest(parse, stamps[..i])
    {
      assert stamps[..i + 1][..i] == stamps[..i];
      var moment := parse(stamps[i]);
      if born.None? || (moment.Some? && moment.value < born.value) {
        born := moment;
      }
    }
    assert stamps[..|stamps|] == stamps;
  }

  method SetDefaults(m: FileMap, added: FileMap) returns (joined: FileMap)
    ensures joined == JoinedAll(m, added)
  {
    joined := m;
    for i := 0 to |added|
      invariant joined == JoinedAll(m, added[..i])
    {
      assert added[..i + 1][..i] == added[..i];
      if added[i].0 !in NamesIn(joined) {
        joined := joined + [added[i]];
      }
    }
    assert added[..|added|] == added;
  }

  // All torrents.

  /** The stored rows by torrent. */
  function Keyed(lower: string -> string, stored: seq<StoredV4>): seq<(Key, RowV4)> {
    seq(|stored|, i requires 0 <= i < |stored| => (KeyOf(lower, stored[i]), stored[i].row))
  }

  /** `_migrate_4_to_5`: group the rows by torrent, then fold each group. */
  method Migrate(lower: string -> string, parse: string -> Option<int>, stampOf: int -> string, stored: seq<StoredV4>)
    returns (records: map<Key, RawRecord>)
    ensures
      var keyed := Keyed(lower, stored);
      && records.Keys == KeysTo(keyed, |keyed|)
      && forall key :: key in records ==>
           RowsFor(keyed, key) != [] && records[key] == Folded(parse, stampOf, key.infohash, RowsFor(keyed, key))
  {
    var grouped := Group(Keyed(lower, stored));
    records := FoldGroups(parse, stampOf, grouped);
  }

  method FoldGroups(parse: string -> Option<int>, stampOf: int -> string, grouped: map<Key, seq<RowV4>>)
    returns (records: map<Key, RawRecord>)
    requires forall key :: key in grouped ==> grouped[key] != []
    ensures records.Keys == grouped.Keys
    ensures forall key :: key in records ==> records[key] == Folded(parse, stampOf, key.infohash, grouped[key])
  {
    records := map[];
    var todo := grouped.Keys;
    while todo != {}
      invariant todo <= grouped.Keys && records.Keys == grouped.Keys - todo
      invariant forall key :: key in records ==> records[key] == Folded(parse, stampOf, key.infohash, grouped[key])
    {
      var key := AnyOf(todo);
      var raw := FoldV4Rows(parse, stampOf, key.infohash, grouped[key]);
      records := records[key := raw];
      todo := todo - {key};
    }
  }
}
