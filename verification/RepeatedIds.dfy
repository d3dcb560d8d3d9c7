/** Graphs in which several keys read as one AniList id: a later key overwrites the record and only adds to the reverse
  * indexes (anibridge.py), and the two backings part exactly where the last key leaves a show of an earlier one out.
  */
module RepeatedIds {
  import opened Wrappers
  import opened AniBridgeSpec
  import opened AniBridgeLaws
  import opened MappingStore

  /** A key's targets name the show. */
  predicate Names(targets: seq<Target>, show: int) {
    exists i :: 0 <= i < |targets| && targets[i].TvdbShow? && targets[i].show == Some(show)
  }

  /** Some key of the id names the show. */
  predicate SomeKeyNames(graph: Graph, id: int, show: int) {
    exists i :: 0 <= i < |graph| && graph[i].0 == Anilist(Some(id)) && Names(graph[i].1, show)
  }

  /** The targets of an id's last key. */
  function LastTargets(graph: Graph, id: int): Option<seq<Target>> {
    if graph == [] then None
    else if graph[|graph| - 1].0 == Anilist(Some(id)) then Some(graph[|graph| - 1].1)
    else LastTargets(graph[..|graph| - 1], id)
  }

  /** The id's last key names the show. */
  predicate LastKeyNames(graph: Graph, id: int, show: int) {
    LastTargets(graph, id).Some? && Names(LastTargets(graph, id).value, show)
  }

  /** An id that names the show in some key does in its last. */
  ghost predicate LastKeysName(graph: Graph, show: int) {
    forall id :: SomeKeyNames(graph, id, show) ==> LastKeyNames(graph, id, show)
  }

  /** Each id's last key names every show its keys name. */
  ghost predicate LastKeysNameAll(graph: Graph) {
    forall show :: LastKeysName(graph, show)
  }

  lemma {:induction false} FoldedNames(targets: seq<Target>, show: int)
    ensures show in Folded(targets).tvdbShows <==> Names(targets, show)
  {
    if targets != [] {
      var n := |targets| - 1;
      FoldedNames(targets[..n], show);
      var last := targets[n].TvdbShow? && targets[n].show == Some(show);
      assert Names(targets, show) <==> Names(targets[..n], show) || last by {
        if Names(targets[..n], show) {
          var i :| 0 <= i < n && targets[..n][i].TvdbShow? && targets[..n][i].show == Some(show);
          assert targets[i].show == Some(show);
        }
        if i :| 0 <= i < |targets| && targets[i].TvdbShow? && targets[i].show == Some(show) {
          assert i < n ==> targets[..n][i] == targets[i];
        }
      }
    }
  }

  lemma OneMoreKey(graph: Graph, entry: (Source, seq<Target>), id: int, show: int)
    ensures SomeKeyNames(graph + [entry], id, show) <==>
      SomeKeyNames(graph, id, show) || (entry.0 == Anilist(Some(id)) && Names(entry.1, show))
  {
    var more := graph + [entry];
    if SomeKeyNames(graph, id, show) {
      var i :| 0 <= i < |graph| && graph[i].0 == Anilist(Some(id)) && Names(graph[i].1, show);
      assert more[i] == graph[i];
    }
    if entry.0 == Anilist(Some(id)) && Names(entry.1, show) {
      assert more[|graph|] == entry;
    }
  }

  /** An id is filed under exactly the shows any of its keys names. */
  lemma {:induction false} FiledIff(graph: Graph, id: int, show: int)
    ensures id in Ids(ParseAll(graph).tvdb, show) <==> SomeKeyNames(graph, id, show)
  {
    if graph != [] {
      var rest, entry := graph[..|graph| - 1], graph[|graph| - 1];
      FiledIff(rest, id, show);
      OneMoreKey(rest, entry, id, show);
      assert graph == rest + [entry];
      RecordsGrow(ParseAll(rest), entry);
      if entry.0.Anilist? && entry.0.id.Some? {
        IndexedShows(ParseAll(rest), entry.0.id.value, entry.1, show);
        FoldedNames(entry.1, show);
      }
    }
  }

  /** A key's targets name the TMDB movie, or the IMDb id. */
  predicate NamesMovie(targets: seq<Target>, movie: int) {
    exists i :: 0 <= i < |targets| && targets[i] == TmdbMovie(Some(movie))
  }

  predicate NamesImdb(targets: seq<Target>, imdb: string) {
    |imdb| > 0 && exists i :: 0 <= i < |targets| && targets[i] == Imdb(imdb)
  }

  predicate SomeKeyNamesMovie(graph: Graph, id: int, movie: int) {
    exists i :: 0 <= i < |graph| && graph[i].0 == Anilist(Some(id)) && NamesMovie(graph[i].1, movie)
  }

  predicate SomeKeyNamesImdb(graph: Graph, id: int, imdb: string) {
    exists i :: 0 <= i < |graph| && graph[i].0 == Anilist(Some(id)) && NamesImdb(graph[i].1, imdb)
  }

  lemma {:induction false} IndexedMovies(idx: Index, id: int, targets: seq<Target>, movie: int, imdb: string)
    ensures
      var after := IndexTargets(idx, id, targets);
      && Ids(after.tmdbMovie, movie) == Ids(idx.tmdbMovie, movie) + (if NamesMovie(targets, movie) then {id} else {})
      && Ids(after.imdb, imdb) == Ids(idx.imdb, imdb) + (if NamesImdb(targets, imdb) then {id} else {})
  {
    if targets != [] {
      var n := |targets| - 1;
      IndexedMovies(idx, id, targets[..n], movie, imdb);
      MoviesOfMore(targets[..n], targets[n], movie, imdb);
      assert targets == targets[..n] + [targets[n]];
    }
  }

  lemma MoviesOfMore(before: seq<Target>, t: Target, movie: int, imdb: string)
    ensures NamesMovie(before + [t], movie) <==> NamesMovie(before, movie) || t == TmdbMovie(Some(movie))
    ensures NamesImdb(before + [t], imdb) <==> NamesImdb(before, imdb) || (|imdb| > 0 && t == Imdb(imdb))
  {
    var more := before + [t];
    assert more[|before|] == t;
    assert forall i :: 0 <= i < |before| ==> more[i] == before[i];
  }

  lemma MovieKeyOfMore(graph: Graph, entry: (Source, seq<Target>), id: int, movie: int, imdb: string)
    ensures SomeKeyNamesMovie(graph + [entry], id, movie) <==>
      SomeKeyNamesMovie(graph, id, movie) || (entry.0 == Anilist(Some(id)) && NamesMovie(entry.1, movie))
    ensures SomeKeyNamesImdb(graph + [entry], id, imdb) <==>
      SomeKeyNamesImdb(graph, id, imdb) || (entry.0 == Anilist(Some(id)) && NamesImdb(entry.1, imdb))
  {
    var more := graph + [entry];
    assert more[|graph|] == entry;
    assert forall i :: 0 <= i < |graph| ==> more[i] == graph[i];
  }

  /** So are the movies and the IMDb ids: an id is filed under exactly those any of its keys names. */
  lemma {:induction false} FiledMoviesIff(graph: Graph, id: int, movie: int, imdb: string)
    ensures id in Ids(ParseAll(graph).tmdbMovie, movie) <==> SomeKeyNamesMovie(graph, id, movie)
    ensures id in Ids(ParseAll(graph).imdb, imdb) <==> SomeKeyNamesImdb(graph, id, imdb)
  {
    if graph != [] {
      var rest, entry := graph[..|graph| - 1], graph[|graph| - 1];
      FiledMoviesIff(rest, id, movie, imdb);
      MovieKeyOfMore(rest, entry, id, movie, imdb);
      assert graph == rest + [entry];
      RecordsGrow(ParseAll(rest), entry);
      if entry.0.Anilist? && entry.0.id.Some? {
        IndexedMovies(ParseAll(rest), entry.0.id.value, entry.1, movie, imdb);
      }
    }
  }

  /** An id's record is its last key's. */
  lemma {:induction false} RecordIsTheLast(graph: Graph, id: int)
    ensures id in ParseAll(graph).records <==> LastTargets(graph, id).Some?
    ensures id in ParseAll(graph).records ==> ParseAll(graph).records[id] == RecordOf(LastTargets(graph, id).value)
  {
    if graph != [] {
      RecordIsTheLast(graph[..|graph| - 1], id);
      RecordsGrow(ParseAll(graph[..|graph| - 1]), graph[|graph| - 1]);
    }
  }

  lemma MapsIff(graph: Graph, id: int, show: int)
    ensures id in ParseAll(graph).records && show in ParseAll(graph).records[id].tvdbShows <==>
      LastKeyNames(graph, id, show)
  {
    RecordIsTheLast(graph, id);
    if LastTargets(graph, id).Some? {
      FoldedNames(LastTargets(graph, id).value, show);
    }
  }

  /** Each id stays filed only under shows its record maps if and only if its last key names every show of its keys. */
  lemma ConsistentIff(graph: Graph)
    ensures Consistent(ParseAll(graph)) <==> LastKeysNameAll(graph)
  {
    var idx := ParseAll(graph);
    forall id, show
      ensures id in Ids(idx.tvdb, show) <==> SomeKeyNames(graph, id, show)
      ensures id in idx.records && show in idx.records[id].tvdbShows <==> LastKeyNames(graph, id, show)
    {
      FiledIff(graph, id, show);
      MapsIff(graph, id, show);
    }
    forall show
      ensures LastKeysName(graph, show) <==>
        forall id :: id in Ids(idx.tvdb, show) ==> id in idx.records && show in idx.records[id].tvdbShows
    {
    }
  }

  lemma DistinctKeysNameAll(graph: Graph)
    requires DistinctIds(graph)
    ensures LastKeysNameAll(graph)
  {
    ParseIsConsistent(graph);
    ConsistentIff(graph);
  }

  /** The two views answer one show lookup alike. */
  ghost predicate ShowAgrees(graph: Graph, rows: Rows, show: int) {
    SqlLookup(rows, TvdbAxis, IntId(show), Some(show)) == ParsedAnswer(graph, TvdbAxis, IntId(show), Some(show))
  }

  /** On any graph the backings answer one show lookup alike if and only if each id that names the show in some key does
    * in its last.
    */
  lemma ShowAgreesIff(graph: Graph, rows: Rows, show: int)
    requires Faithful(Parse(graph), rows)
    ensures ShowAgrees(graph, rows, show) <==> LastKeysName(graph, show)
  {
    var idx := Parse(graph);
    FilterKeepsSound(graph);
    ShowLookupAgreesIff(idx, rows, show);
    forall id
      ensures id in Ids(idx.tvdb, show) <==> SomeKeyNames(graph, id, show)
      ensures id in idx.records && show in idx.records[id].tvdbShows <==> LastKeyNames(graph, id, show)
    {
      FiledIff(graph, id, show);
      MapsIff(graph, id, show);
    }
  }

  /** The two views answer all but the show lookups alike. */
  ghost predicate OthersAgree(graph: Graph, rows: Rows) {
    var idx := Parse(graph);
    && (forall movie ::
          SqlLookup(rows, TmdbMovieAxis, IntId(movie), None) == ParsedAnswer(graph, TmdbMovieAxis, IntId(movie), None))
    && (forall imdb :: SqlLookup(rows, ImdbAxis, StrId(imdb), None) == ParsedAnswer(graph, ImdbAxis, StrId(imdb), None))
    && DistinctExt(rows.xrefs, TvdbAxis) == (set n <- idx.tvdb.Keys :: IntId(n))
    && DistinctExt(rows.xrefs, TmdbMovieAxis) == (set n <- idx.tmdbMovie.Keys :: IntId(n))
    && DistinctExt(rows.xrefs, ImdbAxis) == (set s <- idx.imdb.Keys :: StrId(s))
    && |rows.entries| == |idx.records|
  }

  /** On any graph, repeated ids included, the backings answer every show lookup alike if and only if each id's last key
    * names every show its keys name, and everything else alike whatever the graph.
    */
  lemma BackingsAgreeIff(graph: Graph, rows: Rows)
    requires Faithful(Parse(graph), rows)
    ensures OthersAgree(graph, rows)
    ensures (forall show :: ShowAgrees(graph, rows, show)) <==> LastKeysNameAll(graph)
  {
    var idx := Parse(graph);
    FilterKeepsSound(graph);
    forall show ensures ShowAgrees(graph, rows, show) <==> LastKeysName(graph, show) {
      ShowAgreesIff(graph, rows, show);
    }
    forall axis, ext ensures SqlLookup(rows, axis, ext, None) == ParsedAnswer(graph, axis, ext, None) {
      MovieLookupsAgree(idx, rows, axis, ext);
    }
    TvdbIdSetAgrees(idx, rows);
    TmdbMovieIdSetAgrees(idx, rows);
    ImdbIdSetAgrees(idx, rows);
    LengthAgrees(idx, rows);
  }
}
