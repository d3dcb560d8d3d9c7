/** The SQL backing of the AniBridge index: its row tables, the joined queries over them, and the lookups that
  * regroup the hits (mapping_store.py, and `_sql_lookup` of anibridge.py). A table is its rows in rowid order.
  */
module MappingStore {
  import opened Wrappers
  import opened AniBridgeSpec
  import opened AniBridgeLaws

  datatype Axis = TvdbAxis | TmdbMovieAxis | ImdbAxis

  datatype ExtId = IntId(n: int) | StrId(s: string)

  datatype EntryRow = EntryRow(anilistId: int, anidbId: Option<int>, imdbId: Option<string>, tmdbMovieId: Option<int>)

  datatype XrefRow = XrefRow(axis: Axis, ext: ExtId, anilistId: int)

  /** A row of one AniList record about one TVDB show. */
  datatype ShowRow<T> = ShowRow(anilistId: int, tvdbId: int, cell: T)

  /** A season's range; a NULL start marks a present-but-empty season. */
  datatype RangeCell = RangeCell(season: int, start: Option<int>, end: Option<int>)

  datatype AliasCell = AliasCell(tmdbId: int, tmdbNumber: int, tvdbNumber: int)

  datatype Rows = Rows(
    entries: seq<EntryRow>,
    xrefs: seq<XrefRow>,
    ranges: seq<ShowRow<RangeCell>>,
    aliases: seq<ShowRow<AliasCell>>)

  datatype Hit<T> = Hit(anilistId: int, cell: T)

  function Repeat<T>(count: nat, x: T): seq<T> {
    seq(count, _ => x)
  }

  // The queries.

  /** How many xref rows map (axis, ext) to an id. */
  function XrefCount(xrefs: seq<XrefRow>, axis: Axis, ext: ExtId, id: int): nat {
    if xrefs == [] then 0
    else
      XrefCount(xrefs[..|xrefs| - 1], axis, ext, id)
      + (if xrefs[|xrefs| - 1] == XrefRow(axis, ext, id) then 1 else 0)
  }

  /** The show rows of one record, in rowid order. */
  function RowsAt<T>(rows: seq<ShowRow<T>>, id: int, show: int): seq<T> {
    if rows == [] then []
    else
      var last := rows[|rows| - 1];
      RowsAt(rows[..|rows| - 1], id, show) + (if last.anilistId == id && last.tvdbId == show then [last.cell] else [])
  }

  /** `xref JOIN rows ON anilist_id WHERE axis, ext_id, tvdb_id`: one hit for each matching xref row. */
  function Joined<T>(xrefs: seq<XrefRow>, rows: seq<ShowRow<T>>, axis: Axis, ext: ExtId, show: int): seq<Hit<T>> {
    if rows == [] then []
    else
      var last := rows[|rows| - 1];
      Joined(xrefs, rows[..|rows| - 1], axis, ext, show)
      + (if last.tvdbId == show then
           Repeat(XrefCount(xrefs, axis, ext, last.anilistId), Hit(last.anilistId, last.cell))
         else [])
  }

  function InsertById<T>(sorted: seq<Hit<T>>, hit: Hit<T>): seq<Hit<T>> {
    if sorted == [] || sorted[|sorted| - 1].anilistId <= hit.anilistId then sorted + [hit]
    else InsertById(sorted[..|sorted| - 1], hit) + [sorted[|sorted| - 1]]
  }

  /** `ORDER BY anilist_id, rowid` over hits in rowid order. */
  function OrderedById<T>(hits: seq<Hit<T>>): seq<Hit<T>> {
    if hits == [] then [] else InsertById(OrderedById(hits[..|hits| - 1]), hits[|hits| - 1])
  }

  function ShowHits<T>(xrefs: seq<XrefRow>, rows: seq<ShowRow<T>>, axis: Axis, ext: ExtId, show: int): seq<Hit<T>> {
    OrderedById(Joined(xrefs, rows, axis, ext, show))
  }

  /** `xref JOIN entry`. */
  function EntriesFor(xrefs: seq<XrefRow>, entries: seq<EntryRow>, axis: Axis, ext: ExtId): seq<EntryRow> {
    if entries == [] then []
    else
      var last := entries[|entries| - 1];
      EntriesFor(xrefs, entries[..|entries| - 1], axis, ext)
      + Repeat(XrefCount(xrefs, axis, ext, last.anilistId), last)
  }

  function DistinctExt(xrefs: seq<XrefRow>, axis: Axis): set<ExtId> {
    set x <- xrefs | x.axis == axis :: x.ext
  }

  // The consumer's regrouping.

  function CellsOf<T>(hits: seq<Hit<T>>, id: int): seq<T> {
    if hits == [] then []
    else
      var last := hits[|hits| - 1];
      CellsOf(hits[..|hits| - 1], id) + (if last.anilistId == id then [last.cell] else [])
  }

  /** `_ranges_to_mappings`. */
  function Mappings(cells: seq<RangeCell>): Seasons {
    if cells == [] then map[]
    else
      var before, last := Mappings(cells[..|cells| - 1]), cells[|cells| - 1];
      var bucket := if last.season in before then before[last.season] else [];
      before[last.season := if last.start.Some? then bucket + [Range(last.start.value, last.end)] else bucket]
  }

  /** `_aliasing_by_anilist` for one id: the first row's TMDB show, and the numbers in row order. */
  function AliasingOf(cells: seq<AliasCell>): Option<Aliasing> {
    if cells == [] then None
    else
      var before, last := AliasingOf(cells[..|cells| - 1]), cells[|cells| - 1];
      if before.None? then Some(Aliasing(last.tmdbId, map[last.tmdbNumber := last.tvdbNumber]))
      else Some(Aliasing(before.value.tmdbId, before.value.aliases[last.tmdbNumber := last.tvdbNumber]))
  }

  function EntryFrom(rows: Rows, axis: Axis, ext: ExtId, show: Option<int>, row: EntryRow): Entry {
    Entry(row.anidbId, row.imdbId, row.tmdbMovieId,
          if show.None? then None
          else
            Some(TvdbMaps(Mappings(CellsOf(ShowHits(rows.xrefs, rows.ranges, axis, ext, show.value), row.anilistId)),
                          AliasingOf(CellsOf(ShowHits(rows.xrefs, rows.aliases, axis, ext, show.value),
                            row.anilistId)))))
  }

  function Answers(rows: Rows, axis: Axis, ext: ExtId, show: Option<int>, found: seq<EntryRow>): map<int, Entry> {
    if found == [] then map[]
    else
      var last := found[|found| - 1];
      Answers(rows, axis, ext, show, found[..|found| - 1])[last.anilistId := EntryFrom(rows, axis, ext, show, last)]
  }

  /** `_sql_lookup`. */
  function SqlLookup(rows: Rows, axis: Axis, ext: ExtId, show: Option<int>): map<int, Entry> {
    Answers(rows, axis, ext, show, EntriesFor(rows.xrefs, rows.entries, axis, ext))
  }

  // What the rows of an index are, whatever order they were written in.

  function Slot(idx: Index, axis: Axis, ext: ExtId): set<int> {
    match (axis, ext)
    case (TvdbAxis, IntId(n)) => Ids(idx.tvdb, n)
    case (TmdbMovieAxis, IntId(n)) => Ids(idx.tmdbMovie, n)
    case (ImdbAxis, StrId(s)) => Ids(idx.imdb, s)
    case _ => {}
  }

  function EntryRowOf(id: int, r: Record): EntryRow {
    EntryRow(id, r.anidbId, First(r.imdbIds), First(r.tmdbMovieIds))
  }

  function ShowSeasons(idx: Index, id: int, show: int): Seasons {
    if id in idx.records && show in idx.records[id].tvdbShows then idx.records[id].tvdbShows[show] else map[]
  }

  function ShowAliasing(idx: Index, id: int, show: int): Option<Aliasing> {
    if id in idx.records && show in idx.records[id].aliasing then Some(idx.records[id].aliasing[show]) else None
  }

  ghost predicate Faithful(idx: Index, rows: Rows) {
    && (forall e :: e in rows.entries <==>
      e.anilistId in idx.records && e == EntryRowOf(e.anilistId, idx.records[e.anilistId]))
    && (forall i, j :: 0 <= i < j < |rows.entries| ==> rows.entries[i].anilistId != rows.entries[j].anilistId)
    && (forall axis, ext, id :: XrefCount(rows.xrefs, axis, ext, id) == if id in Slot(idx, axis, ext) then 1 else 0)
    && (forall id, show :: Mappings(RowsAt(rows.ranges, id, show)) == ShowSeasons(idx, id, show))
    && (forall id, show :: AliasingOf(RowsAt(rows.aliases, id, show)) == ShowAliasing(idx, id, show))
  }

  // The two backings agree.

  lemma {:induction false} CellsOfConcat<T>(a: seq<Hit<T>>, b: seq<Hit<T>>, id: int)
    ensures CellsOf(a + b, id) == CellsOf(a, id) + CellsOf(b, id)
  {
    if b == [] {
      assert a + b == a;
    } else {
      assert (a + b)[..|a + b| - 1] == a + b[..|b| - 1];
      CellsOfConcat(a, b[..|b| - 1], id);
    }
  }

  lemma OneMoreHit<T>(hits: seq<Hit<T>>, hit: Hit<T>, id: int)
    ensures CellsOf(hits + [hit], id) == CellsOf(hits, id) + (if hit.anilistId == id then [hit.cell] else [])
  {
    assert (hits + [hit])[..|hits|] == hits;
  }

  /** Ordering by id keeps each id's own order. */
  lemma {:induction false} InsertKeepsCells<T>(sorted: seq<Hit<T>>, hit: Hit<T>, id: int)
    ensures CellsOf(InsertById(sorted, hit), id) ==
      CellsOf(sorted, id) + (if hit.anilistId == id then [hit.cell] else [])
  {
    if sorted == [] || sorted[|sorted| - 1].anilistId <= hit.anilistId {
      OneMoreHit(sorted, hit, id);
    } else {
      var n := |sorted| - 1;
      InsertKeepsCells(sorted[..n], hit, id);
      OneMoreHit(InsertById(sorted[..n], hit), sorted[n], id);
      OneMoreHit(sorted[..n], sorted[n], id);
      assert sorted == sorted[..n] + [sorted[n]];
    }
  }

  lemma {:induction false} OrderKeepsCells<T>(hits: seq<Hit<T>>, id: int)
    ensures CellsOf(OrderedById(hits), id) == CellsOf(hits, id)
  {
    if hits != [] {
      OrderKeepsCells(hits[..|hits| - 1], id);
      InsertKeepsCells(OrderedById(hits[..|hits| - 1]), hits[|hits| - 1], id);
    }
  }

  predicate Ascending<T>(hits: seq<Hit<T>>) {
    forall i, j :: 0 <= i < j < |hits| ==> hits[i].anilistId <= hits[j].anilistId
  }

  lemma {:induction false} InsertKeepsAll<T>(sorted: seq<Hit<T>>, hit: Hit<T>)
    ensures multiset(InsertById(sorted, hit)) == multiset(sorted) + multiset{hit}
  {
    if sorted != [] && sorted[|sorted| - 1].anilistId > hit.anilistId {
      var n := |sorted| - 1;
      InsertKeepsAll(sorted[..n], hit);
      assert sorted == sorted[..n] + [sorted[n]];
    }
  }

  lemma {:induction false} InsertAscends<T>(sorted: seq<Hit<T>>, hit: Hit<T>)
    requires Ascending(sorted)
    ensures Ascending(InsertById(sorted, hit))
  {
    if sorted != [] && sorted[|sorted| - 1].anilistId > hit.anilistId {
      var n := |sorted| - 1;
      var before := InsertById(sorted[..n], hit);
      InsertAscends(sorted[..n], hit);
      InsertKeepsAll(sorted[..n], hit);
      forall k | 0 <= k < |before| ensures before[k].anilistId <= sorted[n].anilistId {
        assert before[k] in multiset(before);
        assert before[k] == hit || before[k] in sorted[..n];
      }
    }
  }

  /** The query's order: its hits by id, each as often as joined. */
  lemma {:induction false} OrderAscends<T>(hits: seq<Hit<T>>)
    ensures Ascending(OrderedById(hits)) && multiset(OrderedById(hits)) == multiset(hits)
  {
    if hits != [] {
      var n := |hits| - 1;
      OrderAscends(hits[..n]);
      InsertAscends(OrderedById(hits[..n]), hits[n]);
      InsertKeepsAll(OrderedById(hits[..n]), hits[n]);
      assert hits == hits[..n] + [hits[n]];
    }
  }

  lemma {:induction false} RepeatedCells<T>(count: nat, hit: Hit<T>, id: int)
    ensures hit.anilistId != id ==> CellsOf(Repeat(count, hit), id) == []
    ensures hit.anilistId == id ==> CellsOf(Repeat(count, hit), id) == Repeat(count, hit.cell)
  {
    if count > 0 {
      RepeatedCells(count - 1, hit, id);
      assert Repeat(count, hit)[..count - 1] == Repeat(count - 1, hit);
    }
  }

  /** A record one xref row maps gets its own rows back, in rowid order; one that none maps gets nothing. */
  lemma {:induction false} JoinGivesItsRows<T>(xrefs: seq<XrefRow>, rows: seq<ShowRow<T>>, axis: Axis, ext: ExtId,
                                               show: int, id: int)
    requires XrefCount(xrefs, axis, ext, id) <= 1
    ensures CellsOf(Joined(xrefs, rows, axis, ext, show), id) ==
            if XrefCount(xrefs, axis, ext, id) == 1 then RowsAt(rows, id, show) else []
  {
    if rows != [] {
      var n := |rows| - 1;
      var last := rows[n];
      var joined, own := Joined(xrefs, rows[..n], axis, ext, show), RowsAt(rows[..n], id, show);
      JoinGivesItsRows(xrefs, rows[..n], axis, ext, show, id);
      var count, hit := XrefCount(xrefs, axis, ext, last.anilistId), Hit(last.anilistId, last.cell);
      var more := if last.tvdbId == show then Repeat(count, hit) else [];
      RepeatedCells(count, hit, id);
      CellsOfConcat(joined, more, id);
      assert Joined(xrefs, rows, axis, ext, show) == joined + more;
      assert CellsOf(joined, id) + [] == CellsOf(joined, id) && own + [] == own;
      if last.anilistId == id && last.tvdbId == show {
        assert Repeat(count, hit.cell) == if count == 1 then [last.cell] else [];
      }
    }
  }

  lemma ShowHitsOf<T>(xrefs: seq<XrefRow>, rows: seq<ShowRow<T>>, axis: Axis, ext: ExtId, show: int, id: int)
    requires XrefCount(xrefs, axis, ext, id) == 1
    ensures CellsOf(ShowHits(xrefs, rows, axis, ext, show), id) == RowsAt(rows, id, show)
  {
    OrderKeepsCells(Joined(xrefs, rows, axis, ext, show), id);
    JoinGivesItsRows(xrefs, rows, axis, ext, show, id);
  }

  lemma RepeatedHolds(count: nat, row: EntryRow, e: EntryRow)
    ensures e in Repeat(count, row) <==> e == row && count > 0
  {
    if count > 0 {
      assert Repeat(count, row)[0] == row;
    }
  }

  lemma {:induction false} EntriesForHolds(xrefs: seq<XrefRow>, entries: seq<EntryRow>, axis: Axis, ext: ExtId,
                                           e: EntryRow)
    ensures e in EntriesFor(xrefs, entries, axis, ext) <==> e in entries && XrefCount(xrefs, axis, ext, e.anilistId) > 0
  {
    if entries != [] {
      var n := |entries| - 1;
      EntriesForHolds(xrefs, entries[..n], axis, ext, e);
      RepeatedHolds(XrefCount(xrefs, axis, ext, entries[n].anilistId), entries[n], e);
    }
  }

  /** The answer maps each found id to the entry of its row, ids being unique among the rows found. */
  lemma {:induction false} AnswersAre(rows: Rows, axis: Axis, ext: ExtId, show: Option<int>, found: seq<EntryRow>,
                                      id: int)
    requires forall e, f :: e in found && f in found && e.anilistId == f.anilistId ==> e == f
    ensures id in Answers(rows, axis, ext, show, found) <==> exists e :: e in found && e.anilistId == id
    ensures forall e :: e in found && e.anilistId == id ==>
      Answers(rows, axis, ext, show, found)[id] == EntryFrom(rows, axis, ext, show, e)
  {
    if found != [] {
      var n := |found| - 1;
      AnswersAre(rows, axis, ext, show, found[..n], id);
      assert found[n] in found;
      forall e | e in found && e != found[n] ensures e in found[..n] {
      }
    }
  }

  /** What a SQL lookup answers, over faithful rows. */
  lemma SqlAnswer(idx: Index, rows: Rows, axis: Axis, ext: ExtId, show: Option<int>, id: int)
    requires Faithful(idx, rows)
    ensures id in SqlLookup(rows, axis, ext, show) <==> id in Slot(idx, axis, ext) && id in idx.records
    ensures id in SqlLookup(rows, axis, ext, show) ==>
      SqlLookup(rows, axis, ext, show)[id] ==
        ConsumerEntry(idx.records[id], None).(tvdb :=
          if show.None? then None
          else Some(TvdbMaps(ShowSeasons(idx, id, show.value), ShowAliasing(idx, id, show.value))))
  {
    var found := EntriesFor(rows.xrefs, rows.entries, axis, ext);
    forall e ensures e in found <==> e in rows.entries && e.anilistId in Slot(idx, axis, ext) {
      EntriesForHolds(rows.xrefs, rows.entries, axis, ext, e);
    }
    AnswersAre(rows, axis, ext, show, found, id);
    if id in idx.records {
      var e := EntryRowOf(id, idx.records[id]);
      assert e in rows.entries;
      if show.Some? && id in Slot(idx, axis, ext) {
        ShowHitsOf(rows.xrefs, rows.ranges, axis, ext, show.value, id);
        ShowHitsOf(rows.xrefs, rows.aliases, axis, ext, show.value, id);
      }
    }
  }

  function GraphAnswer(idx: Index, axis: Axis, ext: ExtId, show: Option<int>): map<int, Entry>
    requires Sound(idx)
  {
    GraphLookup(idx, Slot(idx, axis, ext), show)
  }

  /** What the graph-backed view of a graph answers. */
  function ParsedAnswer(graph: Graph, axis: Axis, ext: ExtId, show: Option<int>): map<int, Entry> {
    FilterKeepsSound(graph);
    GraphAnswer(Parse(graph), axis, ext, show)
  }

  /** By TMDB movie and by IMDb id the backings always agree. */
  lemma MovieLookupsAgree(idx: Index, rows: Rows, axis: Axis, ext: ExtId)
    requires Sound(idx) && Faithful(idx, rows)
    ensures SqlLookup(rows, axis, ext, None) == GraphAnswer(idx, axis, ext, None)
  {
    var sql, graph := SqlLookup(rows, axis, ext, None), GraphAnswer(idx, axis, ext, None);
    forall id ensures (id in sql <==> id in graph) && (id in sql ==> sql[id] == graph[id]) {
      SqlAnswer(idx, rows, axis, ext, None, id);
    }
  }

  /** By TVDB show they agree exactly when every id filed under the show still maps it. */
  lemma ShowLookupAgreesIff(idx: Index, rows: Rows, show: int)
    requires Sound(idx) && Faithful(idx, rows)
    ensures SqlLookup(rows, TvdbAxis, IntId(show), Some(show)) == GraphAnswer(idx, TvdbAxis, IntId(show), Some(show))
            <==> forall id :: id in Ids(idx.tvdb, show) ==> show in idx.records[id].tvdbShows
  {
    var sql := SqlLookup(rows, TvdbAxis, IntId(show), Some(show));
    var graph := GraphAnswer(idx, TvdbAxis, IntId(show), Some(show));
    forall id
      ensures id in sql <==> id in graph
      ensures id in sql ==> (sql[id] == graph[id] <==> show in idx.records[id].tvdbShows)
    {
      SqlAnswer(idx, rows, TvdbAxis, IntId(show), Some(show), id);
    }
    if forall id :: id in Ids(idx.tvdb, show) ==> show in idx.records[id].tvdbShows {
      assert sql.Keys == graph.Keys;
    }
    forall id | id in Ids(idx.tvdb, show) && sql == graph ensures show in idx.records[id].tvdbShows {
      assert id in sql;
    }
  }

  lemma TvdbIdSetAgrees(idx: Index, rows: Rows)
    requires Sound(idx) && Faithful(idx, rows)
    ensures DistinctExt(rows.xrefs, TvdbAxis) == set n <- idx.tvdb.Keys :: IntId(n)
  {
    forall ext ensures ext in DistinctExt(rows.xrefs, TvdbAxis) <==> Slot(idx, TvdbAxis, ext) != {} {
      DistinctIsNonEmptySlot(idx, rows, TvdbAxis, ext);
    }
    forall n ensures n in idx.tvdb <==> Slot(idx, TvdbAxis, IntId(n)) != {} {
    }
  }

  lemma TmdbMovieIdSetAgrees(idx: Index, rows: Rows)
    requires Sound(idx) && Faithful(idx, rows)
    ensures DistinctExt(rows.xrefs, TmdbMovieAxis) == set n <- idx.tmdbMovie.Keys :: IntId(n)
  {
    forall ext ensures ext in DistinctExt(rows.xrefs, TmdbMovieAxis) <==> Slot(idx, TmdbMovieAxis, ext) != {} {
      DistinctIsNonEmptySlot(idx, rows, TmdbMovieAxis, ext);
    }
    forall n ensures n in idx.tmdbMovie <==> Slot(idx, TmdbMovieAxis, IntId(n)) != {} {
    }
  }

  lemma ImdbIdSetAgrees(idx: Index, rows: Rows)
    requires Sound(idx) && Faithful(idx, rows)
    ensures DistinctExt(rows.xrefs, ImdbAxis) == set s <- idx.imdb.Keys :: StrId(s)
  {
    forall ext ensures ext in DistinctExt(rows.xrefs, ImdbAxis) <==> Slot(idx, ImdbAxis, ext) != {} {
      DistinctIsNonEmptySlot(idx, rows, ImdbAxis, ext);
    }
    forall s ensures s in idx.imdb <==> Slot(idx, ImdbAxis, StrId(s)) != {} {
    }
  }

  /** The length agrees. */
  lemma LengthAgrees(idx: Index, rows: Rows)
    requires Faithful(idx, rows)
    ensures |rows.entries| == |idx.records|
  {
    forall id ensures id in idx.records <==> exists e :: e in rows.entries && e.anilistId == id {
      if id in idx.records {
        assert EntryRowOf(id, idx.records[id]) in rows.entries;
      }
    }
    EntriesCount(rows.entries, idx.records.Keys);
  }

  lemma {:induction false} CountPositive(xrefs: seq<XrefRow>, axis: Axis, ext: ExtId, id: int)
    ensures XrefCount(xrefs, axis, ext, id) > 0 <==> XrefRow(axis, ext, id) in xrefs
  {
    if xrefs != [] {
      CountPositive(xrefs[..|xrefs| - 1], axis, ext, id);
    }
  }

  lemma DistinctIsNonEmptySlot(idx: Index, rows: Rows, axis: Axis, ext: ExtId)
    requires Faithful(idx, rows)
    ensures ext in DistinctExt(rows.xrefs, axis) <==> Slot(idx, axis, ext) != {}
  {
    if ext in DistinctExt(rows.xrefs, axis) {
      var x :| x in rows.xrefs && x.axis == axis && x.ext == ext;
      CountPositive(rows.xrefs, axis, ext, x.anilistId);
      assert x.anilistId in Slot(idx, axis, ext);
    }
    forall id | id in Slot(idx, axis, ext) ensures ext in DistinctExt(rows.xrefs, axis) {
      assert XrefCount(rows.xrefs, axis, ext, id) == 1;
      CountPositive(rows.xrefs, axis, ext, id);
      var x := XrefRow(axis, ext, id);
      assert x in rows.xrefs && x.axis == axis && x.ext == ext;
    }
    assert Slot(idx, axis, ext) != {} ==> exists id :: id in Slot(idx, axis, ext);
  }

  lemma {:induction false} EntriesCount(entries: seq<EntryRow>, ids: set<int>)
    requires forall i, j :: 0 <= i < j < |entries| ==> entries[i].anilistId != entries[j].anilistId
    requires forall id :: id in ids <==> exists e :: e in entries && e.anilistId == id
    ensures |entries| == |ids|
  {
    if entries == [] {
      assert ids == {};
    } else {
      var n := |entries| - 1;
      var last := entries[n].anilistId;
      assert entries[n] in entries;
      forall id ensures id in ids - {last} <==> exists e :: e in entries[..n] && e.anilistId == id {
        if id in ids - {last} {
          var e :| e in entries && e.anilistId == id;
          assert e in entries[..n];
        }
      }
      EntriesCount(entries[..n], ids - {last});
    }
  }

  /** Backing equivalence: for every graph whose AniList keys read as distinct ids, the SQL-backed view over its
    * rows answers every lookup, the id sets and the length as the graph-backed view does.
    */
  lemma BackingsAgree(graph: Graph, rows: Rows, show: int, movie: int, imdb: string)
    requires DistinctIds(graph) && Faithful(Parse(graph), rows)
    ensures
      var idx := Parse(graph);
      && SqlLookup(rows, TvdbAxis, IntId(show), Some(show)) == ParsedAnswer(graph, TvdbAxis, IntId(show), Some(show))
      && SqlLookup(rows, TmdbMovieAxis, IntId(movie), None) == ParsedAnswer(graph, TmdbMovieAxis, IntId(movie), None)
      && SqlLookup(rows, ImdbAxis, StrId(imdb), None) == ParsedAnswer(graph, ImdbAxis, StrId(imdb), None)
      && DistinctExt(rows.xrefs, TvdbAxis) == (set n <- idx.tvdb.Keys :: IntId(n))
      && DistinctExt(rows.xrefs, TmdbMovieAxis) == (set n <- idx.tmdbMovie.Keys :: IntId(n))
      && DistinctExt(rows.xrefs, ImdbAxis) == (set s <- idx.imdb.Keys :: StrId(s))
      && |rows.entries| == |idx.records|
  {
    FilterKeepsSound(graph);
    ParseIsConsistent(graph);
    ShowLookupAgreesIff(Parse(graph), rows, show);
    MovieLookupsAgree(Parse(graph), rows, TmdbMovieAxis, IntId(movie));
    MovieLookupsAgree(Parse(graph), rows, ImdbAxis, StrId(imdb));
    TvdbIdSetAgrees(Parse(graph), rows);
    TmdbMovieIdSetAgrees(Parse(graph), rows);
    ImdbIdSetAgrees(Parse(graph), rows);
    LengthAgrees(Parse(graph), rows);
  }

  lemma FilterKeepsSound(graph: Graph)
    ensures Sound(Parse(graph))
  {
    ParseIsSound(graph);
    assert Parse(graph).records.Keys == ParseAll(graph).records.Keys;
  }

  /** The precondition is needed: two keys of one id, the later without the show, and the lookups differ. */
  lemma RepeatedIdSplitsTheBackings(rows: Rows)
    requires Faithful(Parse([(Anilist(Some(1)), [TvdbShow(Some(7), Some(1), [])]), (Anilist(Some(1)), [])]), rows)
    ensures
      var graph := [(Anilist(Some(1)), [TvdbShow(Some(7), Some(1), [])]), (Anilist(Some(1)), [])];
      SqlLookup(rows, TvdbAxis, IntId(7), Some(7)) != ParsedAnswer(graph, TvdbAxis, IntId(7), Some(7))
  {
    var first: (Source, seq<Target>), second: (Source, seq<Target>) :=
      (Anilist(Some(1)), [TvdbShow(Some(7), Some(1), [])]), (Anilist(Some(1)), []);
    var graph := [first, second];
    FilterKeepsSound(graph);
    assert graph[..1] == [first] && [first][..0] == [];
    var one := ParseAll([first]);
    RecordsGrow(EMPTY_INDEX, first);
    RecordsGrow(one, second);
    IndexedShows(EMPTY_INDEX, 1, first.1, 7);
    IndexedShows(one, 1, second.1, 7);
    assert first.1[..0] == [] && ParseAll([]) == EMPTY_INDEX;
    assert one.tvdb == IndexTargets(EMPTY_INDEX, 1, first.1).tvdb;
    assert 7 in Folded(first.1).tvdbShows;
    assert Ids(one.tvdb, 7) == {1};
    assert 1 in Ids(Parse(graph).tvdb, 7);
    assert Parse(graph).records[1].tvdbShows == map[];
    ShowLookupAgreesIff(Parse(graph), rows, 7);
  }
}
