/** What the v4 to v5 fold conserves (cache.py, manual_import.py): each old row is one claim, and every fact of the new
  * record comes from the rows.
  */
module MigrationLaws {
  import opened Wrappers
  import opened NameFolding
  import opened PendingRecords
  import opened PendingRows
  import opened Grouping
  import opened PendingMigration

  /** Every old row is exactly one claim of its torrent's record: the torrent's claims are its rows', each as often as
    * it was stored.
    */
  lemma EachRowIsOneClaim(lower: string -> string, parse: string -> Option<int>, stampOf: int -> string,
                          stored: seq<StoredV4>, key: Key, row: RowV4)
    requires RowsFor(Keyed(lower, stored), key) != []
    ensures
      var keyed := Keyed(lower, stored);
      var claims := ClaimsIn(Folded(parse, stampOf, key.infohash, RowsFor(keyed, key)));
      && multiset(RowsFor(keyed, key))[row] == multiset(keyed)[(key, row)]
      && |claims| == |RowsFor(keyed, key)|
      && forall i :: 0 <= i < |claims| ==> claims[i] == ClaimOf(RowsFor(keyed, key)[i])
  {
    var keyed := Keyed(lower, stored);
    RowsAreCounted(keyed, key, row, |keyed|);
    assert keyed[..|keyed|] == keyed;
  }

  /** The query's order: one torrent's rows by their column. */
  ghost predicate Ordered(keyed: seq<(Key, RowV4)>) {
    forall i, j :: 0 <= i < j < |keyed| && keyed[i].0 == keyed[j].0 ==> keyed[i].1.column <= keyed[j].1.column
  }

  ghost predicate InColumnOrder(rows: seq<RowV4>) {
    forall i, j :: 0 <= i < j < |rows| ==> rows[i].column <= rows[j].column
  }

  predicate Stored(keyed: seq<(Key, RowV4)>, n: nat, key: Key, column: int)
    requires n <= |keyed|
  {
    exists i :: 0 <= i < n && keyed[i].0 == key && keyed[i].1.column == column
  }

  lemma StoredGoesOn(keyed: seq<(Key, RowV4)>, n: nat, key: Key, column: int)
    requires n < |keyed| && Ordered(keyed) && Stored(keyed, n, key, column)
    ensures Stored(keyed, n + 1, key, column)
    ensures keyed[n].0 == key ==> column <= keyed[n].1.column
  {
    var i: nat :| i < n && keyed[i].0 == key && keyed[i].1.column == column;
  }

  lemma {:induction false} TorrentRowsAreOrdered(keyed: seq<(Key, RowV4)>, key: Key, n: nat)
    requires Ordered(keyed) && n <= |keyed|
    ensures InColumnOrder(RowsTo(keyed, key, n))
    ensures forall k :: 0 <= k < |RowsTo(keyed, key, n)| ==> Stored(keyed, n, key, RowsTo(keyed, key, n)[k].column)
  {
    if n > 0 {
      TorrentRowsAreOrdered(keyed, key, n - 1);
      var before := RowsTo(keyed, key, n - 1);
      forall k: nat | k < |before|
        ensures Stored(keyed, n, key, before[k].column)
        ensures keyed[n - 1].0 == key ==> before[k].column <= keyed[n - 1].1.column
      {
        StoredGoesOn(keyed, n - 1, key, before[k].column);
      }
      assert keyed[n - 1].0 == key ==> Stored(keyed, n, key, keyed[n - 1].1.column);
    }
  }

  lemma {:induction false} JoinedAllNames(m: FileMap, added: FileMap)
    ensures NamesIn(JoinedAll(m, added)) == NamesIn(m) + NamesIn(added)
  {
    if added != [] {
      var n := |added| - 1;
      JoinedAllNames(m, added[..n]);
      NamesOfMore(added[..n], added[n]);
      NamesOfMore(JoinedAll(m, added[..n]), added[n]);
      assert added == added[..n] + [added[n]];
    }
  }

  lemma {:induction false} JoinedAllGets(m: FileMap, added: FileMap, name: string)
    ensures NamesIn(JoinedAll(m, added)) == NamesIn(m) + NamesIn(added)
    ensures Get(JoinedAll(m, added), name) == if name in NamesIn(m) then Get(m, name) else Get(added, name)
  {
    JoinedAllNames(m, added);
    if added == [] {
      GetAbsent(m, name);
    } else {
      var n := |added| - 1;
      var before := JoinedAll(m, added[..n]);
      JoinedAllGets(m, added[..n], name);
      assert added == added[..n] + [added[n]];
      GetMore(added[..n], added[n], name);
      GetMore(before, added[n], name);
      JoinedAllNames(m, added[..n]);
      GetAbsent(added[..n], name);
      GetAbsent(before, name);
    }
  }

  /** The first row that maps a name. */
  function FirstMapping(rows: seq<RowV4>, name: string): Option<RowV4> {
    if rows == [] then None
    else if FirstMapping(rows[..|rows| - 1], name).Some? then FirstMapping(rows[..|rows| - 1], name)
    else if name in NamesIn(rows[|rows| - 1].fileEpisodeMap) then Some(rows[|rows| - 1])
    else None
  }

  /** The folded map holds a name exactly when a row maps it, with the ids of the first row that does. */
  lemma {:induction false} UnionedGets(rows: seq<RowV4>, name: string)
    ensures Get(Unioned(rows), name) ==
            if FirstMapping(rows, name).Some? then Get(FirstMapping(rows, name).value.fileEpisodeMap, name) else None
    ensures name in NamesIn(Unioned(rows)) <==> FirstMapping(rows, name).Some?
  {
    if rows != [] {
      var n := |rows| - 1;
      UnionedGets(rows[..n], name);
      JoinedAllGets(Unioned(rows[..n]), rows[n].fileEpisodeMap, name);
      GetAbsent(rows[n].fileEpisodeMap, name);
    }
  }

  /** That row has the lowest column id of the rows that map the name. */
  lemma {:induction false} FirstIsLowest(rows: seq<RowV4>, name: string)
    requires InColumnOrder(rows)
    ensures FirstMapping(rows, name).Some? <==> exists row :: row in rows && name in NamesIn(row.fileEpisodeMap)
    ensures FirstMapping(rows, name).Some? ==>
      && FirstMapping(rows, name).value in rows
      && name in NamesIn(FirstMapping(rows, name).value.fileEpisodeMap)
      && forall row :: row in rows && name in NamesIn(row.fileEpisodeMap) ==>
           FirstMapping(rows, name).value.column <= row.column
  {
    if rows != [] {
      var n := |rows| - 1;
      FirstIsLowest(rows[..n], name);
      assert rows == rows[..n] + [rows[n]];
      forall row | row in rows[..n] ensures row.column <= rows[n].column {
        var i :| 0 <= i < n && rows[i] == row;
      }
    }
  }

  lemma {:induction false} LatestIsMax(parse: string -> Option<int>, stamps: seq<string>)
    ensures Latest(parse, stamps).None? <==> forall s :: s in stamps ==> parse(s).None?
    ensures Latest(parse, stamps).Some? ==>
      && (exists s :: s in stamps && parse(s) == Latest(parse, stamps))
      && forall s :: s in stamps && parse(s).Some? ==> parse(s).value <= Latest(parse, stamps).value
  {
    if stamps != [] {
      var n := |stamps| - 1;
      LatestIsMax(parse, stamps[..n]);
      assert stamps == stamps[..n] + [stamps[n]];
      assert stamps[n] in stamps;
    }
  }

  lemma {:induction false} EarliestIsMin(parse: string -> Option<int>, stamps: seq<string>)
    ensures Earliest(parse, stamps).None? <==> forall s :: s in stamps ==> parse(s).None?
    ensures Earliest(parse, stamps).Some? ==>
      && (exists s :: s in stamps && parse(s) == Earliest(parse, stamps))
      && forall s :: s in stamps && parse(s).Some? ==> parse(s).value >= Earliest(parse, stamps).value
  {
    if stamps != [] {
      var n := |stamps| - 1;
      EarliestIsMin(parse, stamps[..n]);
      assert stamps == stamps[..n] + [stamps[n]];
      assert stamps[n] in stamps;
    }
  }

  /** A moment is one of the rows' and no row's lies beyond it. */
  ghost predicate IsLatest(parse: string -> Option<int>, rows: seq<RowV4>, moment: Option<int>) {
    && (moment.None? <==> forall row :: row in rows ==> parse(row.addedAt).None?)
    && (moment.Some? ==>
          && (exists row :: row in rows && parse(row.addedAt) == moment)
          && forall row :: row in rows && parse(row.addedAt).Some? ==> parse(row.addedAt).value <= moment.value)
  }

  ghost predicate IsEarliest(parse: string -> Option<int>, rows: seq<RowV4>, moment: Option<int>) {
    && (moment.None? <==> forall row :: row in rows ==> parse(row.addedAt).None?)
    && (moment.Some? ==>
          && (exists row :: row in rows && parse(row.addedAt) == moment)
          && forall row :: row in rows && parse(row.addedAt).Some? ==> parse(row.addedAt).value >= moment.value)
  }

  lemma StampsAreTheRows(rows: seq<RowV4>)
    ensures forall row :: row in rows ==> row.addedAt in Stamps(rows)
    ensures forall s :: s in Stamps(rows) ==> exists row :: row in rows && row.addedAt == s
  {
    forall row | row in rows ensures row.addedAt in Stamps(rows) {
      var i :| 0 <= i < |rows| && rows[i] == row;
      assert Stamps(rows)[i] == row.addedAt;
    }
    forall s | s in Stamps(rows) ensures exists row :: row in rows && row.addedAt == s {
      var i :| 0 <= i < |rows| && Stamps(rows)[i] == s;
      assert rows[i] in rows;
    }
  }

  /** The record expires by its newest row and is born with its oldest: stamps written out parse back. */
  lemma ClocksAreConserved(parse: string -> Option<int>, stampOf: int -> string, infohash: string, rows: seq<RowV4>)
    requires rows != []
    requires forall m :: parse(stampOf(m)) == Some(m)
    requires parse("").None?
    ensures IsLatest(parse, rows, NewestClaimedAt(parse, Folded(parse, stampOf, infohash, rows)))
    ensures IsEarliest(parse, rows, parse(Folded(parse, stampOf, infohash, rows).addedAt.value))
  {
    var raw := Folded(parse, stampOf, infohash, rows);
    var claims := ClaimsIn(raw);
    assert seq(|claims|, i requires 0 <= i < |claims| => claims[i].claimedAt.GetOr("")) == Stamps(rows);
    LatestIsMax(parse, Stamps(rows));
    EarliestIsMin(parse, Stamps(rows));
    StampsAreTheRows(rows);
  }

  lemma {:induction false} AllExcludedHolds(rows: seq<RowV4>, name: string)
    ensures name in AllExcluded(rows) <==> exists row :: row in rows && name in row.excludedFiles
  {
    if rows != [] {
      var n := |rows| - 1;
      AllExcludedHolds(rows[..n], name);
      assert rows == rows[..n] + [rows[n]];
      assert rows[n] in rows;
    }
  }

  /** Exclusions are the rows' that no row maps, each once. */
  lemma ExclusionsAreConserved(parse: string -> Option<int>, stampOf: int -> string, infohash: string,
                               rows: seq<RowV4>, name: string)
    requires rows != []
    ensures
      var excluded := Folded(parse, stampOf, infohash, rows).excludedFiles.value;
      && (name in excluded <==>
        (exists row :: row in rows && name in row.excludedFiles) && FirstMapping(rows, name).None?)
      && forall i, j :: 0 <= i < j < |excluded| ==> excluded[i] != excluded[j]
  {
    var same: string -> string := n => n;
    forall n: string ensures Settles(same, n) {
    }
    var kept := Lacking(AllExcluded(rows), NamesIn(Unioned(rows)));
    InOrderIs(same, kept);
    var all := AllExcluded(rows);
    LackingIs(all, NamesIn(Unioned(rows)), |all|, name);
    assert all[..|all|] == all;
    AllExcludedHolds(rows, name);
    UnionedGets(rows, name);
    assert name in kept <==> name in LeavesOf(same, kept);
    assert name in Once(kept) <==> name in Members(Once(kept));
  }

  /** The record's release facts are one row's. */
  predicate FactsOf(raw: RawRecord, row: RowV4) {
    && raw.releaseGroup == Some(row.releaseGroup) && raw.isDualAudio == Some(row.isDualAudio)
    && raw.seadexFiles == Some(row.seadexFiles) && raw.releaseSizes == Some(row.releaseSizes)
  }

  lemma FactsConserve(parse: string -> Option<int>, stampOf: int -> string, infohash: string, rows: seq<RowV4>)
    requires rows != [] && InColumnOrder(rows)
    ensures
      var raw := Folded(parse, stampOf, infohash, rows);
      && (raw.awaitingCleanup.value <==> forall row :: row in rows ==> row.awaitingCleanup)
      && FactsOf(raw, rows[0]) && (forall row :: row in rows ==> rows[0].column <= row.column)
  {
    forall row | row in rows ensures exists i :: 0 <= i < |rows| && rows[i] == row {
    }
  }

  lemma MapConserves(rows: seq<RowV4>, name: string)
    requires InColumnOrder(rows)
    ensures
      var m := Unioned(rows);
      && (Get(m, name).Some? <==> exists row :: row in rows && name in NamesIn(row.fileEpisodeMap))
      && (Get(m, name).Some? ==>
            exists row :: row in rows && Get(row.fileEpisodeMap, name) == Get(m, name)
              && forall other :: other in rows && name in NamesIn(other.fileEpisodeMap) ==> row.column <= other.column)
  {
    UnionedGets(rows, name);
    FirstIsLowest(rows, name);
    GetAbsent(Unioned(rows), name);
  }

  /** Fold conservation, for every torrent of the table. */
  lemma FoldConserves(
      lower: string -> string, parse: string -> Option<int>, stampOf: int -> string,
      stored: seq<StoredV4>, key: Key, name: string)
    requires Ordered(Keyed(lower, stored)) && RowsFor(Keyed(lower, stored), key) != []
    ensures
      var rows := RowsFor(Keyed(lower, stored), key);
      var raw := Folded(parse, stampOf, key.infohash, rows);
      && ClaimsIn(raw) == Claims(rows)
      && (Get(raw.fileEpisodeMap.value, name).Some? <==>
            exists row :: row in rows && name in NamesIn(row.fileEpisodeMap))
      && (Get(raw.fileEpisodeMap.value, name).Some? ==>
            exists row :: row in rows && Get(row.fileEpisodeMap, name) == Get(raw.fileEpisodeMap.value, name)
              && forall other :: other in rows && name in NamesIn(other.fileEpisodeMap) ==> row.column <= other.column)
      && (raw.awaitingCleanup.value <==> forall row :: row in rows ==> row.awaitingCleanup)
      && FactsOf(raw, rows[0]) && (forall row :: row in rows ==> rows[0].column <= row.column)
  {
    var rows := RowsFor(Keyed(lower, stored), key);
    TorrentRowsAreOrdered(Keyed(lower, stored), key, |stored|);
    MapConserves(rows, name);
    FactsConserve(parse, stampOf, key.infohash, rows);
  }
}
