/** Which ids a migrated record's names hold once it is read back (cache.py, manual_import.py): the fold keeps the first
  * row of a spelling whatever ids it holds, and only the reading drops what is no real id.
  */
module MigrationReadback {
  import opened Wrappers
  import opened NameFolding
  import opened PendingRecords
  import opened PendingRows
  import opened PendingMigration
  import opened MigrationLaws

  /** The map entries of all the rows, in their order. */
  function AllEntries(rows: seq<RowV4>): FileMap {
    if rows == [] then [] else AllEntries(rows[..|rows| - 1]) + rows[|rows| - 1].fileEpisodeMap
  }

  /** Entry `k` gives the name its ids: it spells it, no earlier entry has its spelling, and it holds a real id. */
  predicate Gives(leaf: string -> string, all: FileMap, k: nat, name: string)
    requires k < |all|
  {
    leaf(all[k].0) == name && Nonzero(all[k].1) != [] && all[k].0 !in NamesIn(all[..k])
  }

  /** The real ids of the first of `k` entries that gives the name some. */
  function FirstGiven(leaf: string -> string, all: FileMap, k: nat, name: string): Option<seq<int>>
    requires k <= |all|
  {
    if k == 0 then None
    else if FirstGiven(leaf, all, k - 1, name).Some? then FirstGiven(leaf, all, k - 1, name)
    else if Gives(leaf, all, k - 1, name) then Some(Nonzero(all[k - 1].1))
    else None
  }

  lemma {:induction false} JoinedInParts(m: FileMap, a: FileMap, b: FileMap)
    ensures JoinedAll(JoinedAll(m, a), b) == JoinedAll(m, a + b)
  {
    if b == [] {
      assert a + b == a;
    } else {
      var n := |b| - 1;
      assert (a + b)[..|a + b| - 1] == a + b[..n];
      JoinedInParts(m, a, b[..n]);
    }
  }

  lemma {:induction false} UnionedIsJoined(rows: seq<RowV4>)
    ensures Unioned(rows) == JoinedAll([], AllEntries(rows))
  {
    if rows != [] {
      var n := |rows| - 1;
      UnionedIsJoined(rows[..n]);
      JoinedInParts([], AllEntries(rows[..n]), rows[n].fileEpisodeMap);
    }
  }

  /** The map joined from the first `k` entries. */
  function JoinedFrom(all: FileMap, k: nat): FileMap
    requires k <= |all|
  {
    JoinedAll([], all[..k])
  }

  lemma OneMoreJoined(all: FileMap, k: nat)
    requires k < |all|
    ensures NamesIn(JoinedFrom(all, k)) == NamesIn(all[..k])
    ensures JoinedFrom(all, k + 1) ==
      if all[k].0 in NamesIn(all[..k]) then JoinedFrom(all, k) else JoinedFrom(all, k) + [all[k]]
  {
    JoinedAllGets([], all[..k], "");
    assert all[..k + 1][..k] == all[..k];
  }

  lemma OneMoreRead(leaf: string -> string, all: FileMap, k: nat, name: string)
    requires k < |all|
    ensures
      var before, after := NormalizedMap(leaf, JoinedFrom(all, k)), NormalizedMap(leaf, JoinedFrom(all, k + 1));
      Get(after, name) ==
        if Get(before, name).Some? then Get(before, name)
        else if Gives(leaf, all, k, name) then Some(Nonzero(all[k].1))
        else None
  {
    var before := NormalizedMap(leaf, JoinedFrom(all, k));
    OneMoreJoined(all, k);
    NormalizedOfMore(leaf, JoinedFrom(all, k), all[k]);
    GetAbsent(before, name);
    GetMore(before, (leaf(all[k].0), Nonzero(all[k].1)), name);
  }

  lemma {:induction false} ReadTo(leaf: string -> string, all: FileMap, k: nat, name: string)
    requires k <= |all|
    ensures Get(NormalizedMap(leaf, JoinedFrom(all, k)), name) == FirstGiven(leaf, all, k, name)
  {
    if k > 0 {
      ReadTo(leaf, all, k - 1, name);
      OneMoreRead(leaf, all, k - 1, name);
    }
  }

  /** Once read back, a name holds the real ids of the first entry, over the rows in their order, that gives it some: a
    * spelling's later entries never count, and of two spellings of one leaf the first with real ids wins.
    */
  lemma HydratedIds(leaf: string -> string, parse: string -> Option<int>, stampOf: int -> string, infohash: string,
                    rows: seq<RowV4>, guards: map<int, Guards>, name: string)
    requires rows != []
    ensures
      var r, all := FromJson(leaf, Folded(parse, stampOf, infohash, rows), guards), AllEntries(rows);
      Get(r.fileEpisodeMap, name) == FirstGiven(leaf, all, |all|, name)
  {
    var all := AllEntries(rows);
    UnionedIsJoined(rows);
    assert all[..|all|] == all;
    ReadTo(leaf, all, |all|, name);
  }

  /** What the first giving entry is, told without the recursion. */
  lemma {:induction false} FirstGivenIs(leaf: string -> string, all: FileMap, n: nat, name: string)
    requires n <= |all|
    ensures FirstGiven(leaf, all, n, name).None? <==> forall k :: 0 <= k < n ==> !Gives(leaf, all, k, name)
    ensures FirstGiven(leaf, all, n, name).Some? ==>
      exists k :: 0 <= k < n && Gives(leaf, all, k, name) && FirstGiven(leaf, all, n, name) == Some(Nonzero(all[k].1))
        && forall j :: 0 <= j < k ==> !Gives(leaf, all, j, name)
  {
    if n > 0 {
      FirstGivenIs(leaf, all, n - 1, name);
    }
  }

  /** An entry of zero ids in the row of the lower id hides the real ids of the higher one. An old row can hold one: its
    * dict is read as stored, and its own claim still has to leave zero ids out.
    */
  lemma ZeroEntryHidesIds(leaf: string -> string, parse: string -> Option<int>, stampOf: int -> string,
                          infohash: string, low: RowV4, high: RowV4, guards: map<int, Guards>)
    requires leaf("ep") == "ep" && low.column < high.column
    requires low.fileEpisodeMap == [("ep", [0])] && high.fileEpisodeMap == [("ep", [5])]
    ensures
      var r := FromJson(leaf, Folded(parse, stampOf, infohash, [low, high]), guards);
      "ep" !in NamesIn(r.fileEpisodeMap) && Get(high.fileEpisodeMap, "ep") == Some([5])
  {
    var rows, all: FileMap := [low, high], [("ep", [0]), ("ep", [5])];
    assert rows[..1] == [low] && [low][..0] == [];
    assert AllEntries([low]) == [("ep", [0])];
    assert AllEntries(rows) == AllEntries([low]) + high.fileEpisodeMap == all;
    ZeroEntryGivesNothing(leaf, all);
    HydratedIds(leaf, parse, stampOf, infohash, rows, guards, "ep");
    GetAbsent(FromJson(leaf, Folded(parse, stampOf, infohash, rows), guards).fileEpisodeMap, "ep");
  }

  lemma ZeroEntryGivesNothing(leaf: string -> string, all: FileMap)
    requires all == [("ep", [0]), ("ep", [5])]
    ensures FirstGiven(leaf, all, 2, "ep") == None
  {
    NonzeroIs([0]);
    assert all[..1][0] in all[..1];
    FirstGivenIs(leaf, all, 2, "ep");
  }

  /** Once read back, a name stays mapped exactly when the first row that maps it gives it a real id: an empty or
    * all-zero entry of a low AniList id hides the ids of a higher one.
    */
  lemma HydratedKeepsIff(leaf: string -> string, parse: string -> Option<int>, stampOf: int -> string, infohash: string,
                         rows: seq<RowV4>, guards: map<int, Guards>, name: string)
    requires Idempotent(leaf) && rows != []
    ensures
      var r := FromJson(leaf, Folded(parse, stampOf, infohash, rows), guards);
      name in NamesIn(r.fileEpisodeMap) <==>
        exists spelled: string :: leaf(spelled) == name && FirstMapping(rows, spelled).Some?
          && Nonzero(Get(FirstMapping(rows, spelled).value.fileEpisodeMap, spelled).GetOr([])) != []
  {
    var m := Unioned(rows);
    NormalizedNames(leaf, m);
    UnionedIsDistinct(rows);
    if name in Placed(leaf, m) {
      var e :| e in m && Nonzero(e.1) != [] && leaf(e.0) == name;
      UnionedGets(rows, e.0);
      GetOfEntry(m, e);
    }
    forall spelled: string | leaf(spelled) == name && FirstMapping(rows, spelled).Some?
      && Nonzero(Get(FirstMapping(rows, spelled).value.fileEpisodeMap, spelled).GetOr([])) != []
      ensures name in Placed(leaf, m)
    {
      UnionedGets(rows, spelled);
      GetAbsent(m, spelled);
      var e :| e in m && e.0 == spelled;
      GetOfEntry(m, e);
    }
  }

  lemma {:induction false} JoinedIsDistinct(m: FileMap, added: FileMap)
    requires DistinctNames(m)
    ensures DistinctNames(JoinedAll(m, added))
  {
    if added != [] {
      var before := JoinedAll(m, added[..|added| - 1]);
      JoinedIsDistinct(m, added[..|added| - 1]);
      assert forall i :: 0 <= i < |before| ==> before[i] in before && before[i].0 in NamesIn(before);
    }
  }

  lemma {:induction false} UnionedIsDistinct(rows: seq<RowV4>)
    ensures DistinctNames(Unioned(rows))
  {
    if rows != [] {
      UnionedIsDistinct(rows[..|rows| - 1]);
      JoinedIsDistinct(Unioned(rows[..|rows| - 1]), rows[|rows| - 1].fileEpisodeMap);
    }
  }

  lemma {:induction false} GetOfEntry(m: FileMap, e: (string, seq<int>))
    requires DistinctNames(m) && e in m
    ensures Get(m, e.0) == Some(e.1)
  {
    if m[0] != e {
      GetOfEntry(m[1..], e);
      var i :| 0 <= i < |m[1..]| && m[1..][i] == e;
      assert m[i + 1] == e;
    }
  }
}
