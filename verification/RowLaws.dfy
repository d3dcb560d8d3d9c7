/** What a stored row reads as where keys are missing, what an old row's claim holds, and how sizes and exclusions fold,
  * field by field.
  */
module RowLaws {
  import opened Wrappers
  import opened NameFolding
  import opened PendingRecords
  import opened PendingRows
  import opened PendingMigration

  const NO_KEYS := RawRecord(None, None, None, None, None, None, None, None, None, None, None, None)

  const NO_CLAIM_KEYS := RawClaim(None, None, None, None, None, None, None, None, None, None)

  /** A row without any key reads as an empty record of nothing, its cleanup not awaited. */
  lemma MissingKeysRead(leaf: string -> string, guards: map<int, Guards>)
    ensures
      FromJson(leaf, NO_KEYS, guards) ==
        PendingImport("", "", false, [], "", [], [], [], [], false, map[], [])
  {
  }

  /** What a row's own keys read as, the folded places and sizes aside. */
  lemma RecordKeysRead(leaf: string -> string, raw: RawRecord, guards: map<int, Guards>)
    ensures
      var r := FromJson(leaf, raw, guards);
      && (raw.infohash.Some? ==> r.infohash == raw.infohash.value)
      && (raw.releaseGroup.Some? ==> r.releaseGroup == raw.releaseGroup.value)
      && (raw.isDualAudio.Some? ==> r.isDualAudio == raw.isDualAudio.value)
      && (raw.seadexFiles.Some? ==> r.seadexFiles == raw.seadexFiles.value)
      && (raw.addedAt.Some? ==> r.addedAt == raw.addedAt.value)
      && (raw.releaseSizes.Some? ==> r.releaseSizes == raw.releaseSizes.value)
      && (raw.awaitingCleanup.Some? ==> r.awaitingCleanup == raw.awaitingCleanup.value)
      && (raw.claims.Some? ==>
            && |r.claims| == |raw.claims.value|
            && forall i :: 0 <= i < |r.claims| ==> r.claims[i] == ClaimFromJson(raw.claims.value[i], guards))
  {
  }

  /** And what a claim's do, its guards those of the entry it then names. */
  lemma ClaimKeysRead(c: RawClaim, guards: map<int, Guards>)
    ensures
      var read := ClaimFromJson(c, guards);
      && read.alId == (if c.alId == None then 0 else c.alId.value)
      && read.seriesId == (if c.seriesId == None then 0 else c.seriesId.value)
      && read.title == c.title && read.coverage == c.coverage && read.url == c.url
      && read.orderedEpisodeIds == (if c.orderedEpisodeIds == None then [] else c.orderedEpisodeIds.value)
      && read.preownedEpisodeIds == (if c.preownedEpisodeIds == None then [] else c.preownedEpisodeIds.value)
      && read.sliceCoverage == c.sliceCoverage
      && read.claimedAt == (if c.claimedAt == None then "" else c.claimedAt.value)
      && read.names.series ==
           (if c.names == None || c.names.value.series == None then "" else c.names.value.series.value)
      && read.names.anilist ==
           (if c.names == None || c.names.value.anilist == None then [] else c.names.value.anilist.value)
      && read.guards == (if read.alId in guards then guards[read.alId] else Guards([], [], []))
  {
  }

  /** A folded name keeps a size exactly when some spelling of it has it and no spelling has another. */
  lemma SizesFold(leaf: string -> string, r: PendingImport, name: string, size: int)
    ensures
      var sizes := Fold(leaf, r).sizesByName;
      name in sizes && sizes[name] == size <==>
        && (exists spelled :: spelled in r.sizesByName && leaf(spelled) == name && r.sizesByName[spelled] == size)
        && (forall spelled :: spelled in r.sizesByName && leaf(spelled) == name ==> r.sizesByName[spelled] == size)
  {
    if spelled :| spelled in r.sizesByName && leaf(spelled) == name && r.sizesByName[spelled] == size {
      if forall other :: other in r.sizesByName && leaf(other) == name ==> r.sizesByName[other] == size {
        assert Agreed(leaf, r.sizesByName, spelled);
      }
    }
  }

  /** The claim an old row becomes holds its facts as stored, and its window or the one derived. */
  lemma OldClaimHolds(row: RowV4)
    ensures
      var c := ClaimOf(row);
      && c.alId == Some(row.alId) && c.seriesId == Some(row.seriesId)
      && c.title == row.title && c.coverage == row.coverage && c.url == row.url
      && c.names == Some(row.names) && c.preownedEpisodeIds == Some(row.preownedEpisodeIds)
      && c.sliceCoverage == row.sliceCoverage && c.claimedAt == Some(row.addedAt)
      && c.orderedEpisodeIds.Some?
      && (row.orderedEpisodeIds != [] || row.episodeIds == [] ==> c.orderedEpisodeIds.value == row.orderedEpisodeIds)
      && (row.orderedEpisodeIds == [] && row.episodeIds != [] ==>
            forall x :: x in c.orderedEpisodeIds.value <==>
              x != 0 && (x in row.episodeIds || Maps(row.fileEpisodeMap, x)))
  {
    if row.orderedEpisodeIds == [] && row.episodeIds != [] {
      DerivedWindow(row);
      forall x ensures x in MapIds(row.fileEpisodeMap) <==> Maps(row.fileEpisodeMap, x) {
        MapIdsAre(row.fileEpisodeMap, x);
      }
    }
  }

  /** Some entry of the map has the id. */
  predicate Maps(m: FileMap, x: int) {
    exists i :: 0 <= i < |m| && x in m[i].1
  }

  lemma {:induction false} MapIdsAre(m: FileMap, x: int)
    ensures x in MapIds(m) <==> Maps(m, x)
  {
    if m != [] {
      MapIdsAre(m[1..], x);
      if i :| 0 <= i < |m[1..]| && x in m[1..][i].1 {
        assert x in m[i + 1].1;
      }
      if i :| 0 <= i < |m| && x in m[i].1 {
        assert i > 0 ==> x in m[1..][i - 1].1;
      }
    }
  }

  /** The folded record's claims are the rows', one each and in their order, and it is born empty-handed. */
  lemma FoldedClaims(parse: string -> Option<int>, stampOf: int -> string, infohash: string, rows: seq<RowV4>, i: nat)
    requires i < |rows|
    ensures
      var raw := Folded(parse, stampOf, infohash, rows);
      && raw.infohash == Some(infohash)
      && raw.claims.Some? && |raw.claims.value| == |rows| && raw.claims.value[i] == ClaimOf(rows[i])
      && raw.sizesByName == None && raw.handImportFiles == None
      && ((forall k :: 0 <= k < |rows| ==> parse(rows[k].addedAt) == None) ==> raw.addedAt == Some(""))
  {
    NoneEarliest(parse, Stamps(rows));
  }

  lemma {:induction false} NoneEarliest(parse: string -> Option<int>, stamps: seq<string>)
    ensures (forall k :: 0 <= k < |stamps| ==> parse(stamps[k]) == None) ==> Earliest(parse, stamps) == None
  {
    if stamps != [] {
      NoneEarliest(parse, stamps[..|stamps| - 1]);
    }
  }

  /** The rows' exclusions, row after row. */
  function ExcludedIn(rows: seq<RowV4>): seq<string> {
    if rows == [] then [] else rows[0].excludedFiles + ExcludedIn(rows[1..])
  }

  lemma {:induction false} ExcludedOfMore(rows: seq<RowV4>, row: RowV4)
    ensures ExcludedIn(rows + [row]) == ExcludedIn(rows) + row.excludedFiles
  {
    if rows == [] {
      assert rows + [row] == [row] && [row][1..] == [];
    } else {
      assert (rows + [row])[1..] == rows[1..] + [row];
      ExcludedOfMore(rows[1..], row);
    }
  }

  /** They are gathered in the rows' order. */
  lemma {:induction false} ExclusionsInOrder(rows: seq<RowV4>)
    ensures AllExcluded(rows) == ExcludedIn(rows)
  {
    if rows != [] {
      var n := |rows| - 1;
      ExclusionsInOrder(rows[..n]);
      ExcludedOfMore(rows[..n], rows[n]);
      assert rows == rows[..n] + [rows[n]];
    }
  }

  /** The entries whose names a map lacks. */
  function NewTo(base: FileMap, added: FileMap): FileMap {
    if added == [] then []
    else
      (if exists i :: 0 <= i < |base| && base[i].0 == added[0].0 then [] else [added[0]]) + NewTo(base, added[1..])
  }

  lemma {:induction false} NewOfMore(base: FileMap, added: FileMap, e: (string, seq<int>))
    ensures NewTo(base, added + [e]) == NewTo(base, added) + NewTo(base, [e])
  {
    if added == [] {
      assert added + [e] == [e];
    } else {
      assert (added + [e])[1..] == added[1..] + [e];
      NewOfMore(base, added[1..], e);
    }
  }

  lemma {:induction false} JoinedToIs(base: FileMap, added: FileMap, k: nat)
    requires k <= |added|
    ensures JoinedTo(base, added, k) == base + NewTo(base, added[..k])
  {
    if k > 0 {
      JoinedToIs(base, added, k - 1);
      NewOfMore(base, added[..k - 1], added[k - 1]);
      assert added[..k] == added[..k - 1] + [added[k - 1]];
      assert [added[k - 1]][1..] == [];
      if added[k - 1].0 in NamesIn(base) {
        var e :| e in base && e.0 == added[k - 1].0;
      }
    }
  }

  /** Joining maps keeps the base and appends, in order, the entries whose names it lacks. */
  lemma JoinedIs(base: FileMap, added: FileMap)
    ensures JoinedMap(base, added) == base + NewTo(base, added)
  {
    JoinedToIs(base, added, |added|);
    assert added[..|added|] == added;
  }
}
