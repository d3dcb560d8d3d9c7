/** What the AniBridge index promises, whatever the graph: every indexed id has its record, a record is found under
  * each of its shows, and no special is the alias of two entries.
  */
module AniBridgeLaws {
  import opened Wrappers
  import opened Unambiguous
  import opened AniBridgeSpec

  /** No slot of a reverse index is empty, and every id in one has a record. */
  ghost predicate SlotsSound<K(!new)>(index: map<K, set<int>>, ids: set<int>) {
    forall k :: k in index ==> index[k] != {} && index[k] <= ids
  }

  ghost predicate Sound(idx: Index) {
    && SlotsSound(idx.tvdb, idx.records.Keys)
    && SlotsSound(idx.tmdbMovie, idx.records.Keys)
    && SlotsSound(idx.imdb, idx.records.Keys)
    && (forall id, show :: id in idx.records && show in idx.records[id].tvdbShows ==> id in Ids(idx.tvdb, show))
  }

  /** Every id filed under a show still maps it. */
  ghost predicate Consistent(idx: Index) {
    forall show, id :: id in Ids(idx.tvdb, show) ==> id in idx.records && show in idx.records[id].tvdbShows
  }

  lemma {:induction false} IndexedShows(idx: Index, id: int, targets: seq<Target>, show: int)
    ensures
      var after := IndexTargets(idx, id, targets);
      && after.records == idx.records
      && Ids(after.tvdb, show) == Ids(idx.tvdb, show) + (if show in Folded(targets).tvdbShows then {id} else {})
      && (show in after.tvdb ==> show in idx.tvdb || show in Folded(targets).tvdbShows)
  {
    if targets != [] {
      IndexedShows(idx, id, targets[..|targets| - 1], show);
    }
  }

  lemma {:induction false} IndexedSlots(idx: Index, id: int, targets: seq<Target>, ids: set<int>)
    requires SlotsSound(idx.tvdb, ids) && SlotsSound(idx.tmdbMovie, ids) && SlotsSound(idx.imdb, ids) && id in ids
    ensures
      var after := IndexTargets(idx, id, targets);
      SlotsSound(after.tvdb, ids) && SlotsSound(after.tmdbMovie, ids) && SlotsSound(after.imdb, ids)
  {
    if targets != [] {
      IndexedSlots(idx, id, targets[..|targets| - 1], ids);
    }
  }

  /** Every parsed index is sound, repeated AniList keys included. */
  lemma {:induction false} ParseIsSound(graph: Graph)
    ensures Sound(ParseAll(graph))
  {
    if graph != [] {
      var before, entry := ParseAll(graph[..|graph| - 1]), graph[|graph| - 1];
      ParseIsSound(graph[..|graph| - 1]);
      if entry.0.Anilist? && entry.0.id.Some? {
        var id, after := entry.0.id.value, ParseEntry(before, entry);
        IndexedSlots(before, id, entry.1, before.records.Keys + {id});
        IndexedShows(before, id, entry.1, 0);
        assert after.records.Keys == before.records.Keys + {id};
        forall other, show | other in after.records && show in after.records[other].tvdbShows
          ensures other in Ids(after.tvdb, show)
        {
          IndexedShows(before, id, entry.1, show);
        }
      }
    }
  }

  /** No two AniList keys read as one id. */
  predicate DistinctIds(graph: Graph) {
    forall i, j :: 0 <= i < j < |graph| && graph[i].0.Anilist? && graph[i].0.id.Some? ==> graph[i].0 != graph[j].0
  }

  predicate HasKey(graph: Graph, id: int) {
    exists i :: 0 <= i < |graph| && graph[i].0 == Anilist(Some(id))
  }

  lemma {:induction false} ParsedIds(graph: Graph, id: int)
    ensures id in ParseAll(graph).records <==> HasKey(graph, id)
  {
    if graph != [] {
      var before, entry := graph[..|graph| - 1], graph[|graph| - 1];
      ParsedIds(before, id);
      RecordsGrow(ParseAll(before), entry);
      if HasKey(before, id) {
        var i :| 0 <= i < |before| && before[i].0 == Anilist(Some(id));
        assert graph[i].0 == Anilist(Some(id));
      }
      if HasKey(graph, id) && entry.0 != Anilist(Some(id)) {
        var i :| 0 <= i < |graph| && graph[i].0 == Anilist(Some(id));
        assert before[i].0 == Anilist(Some(id));
      }
    }
  }

  lemma RecordsGrow(idx: Index, entry: (Source, seq<Target>))
    ensures idx.records.Keys <= ParseEntry(idx, entry).records.Keys
    ensures entry.0.Anilist? && entry.0.id.Some? ==>
      ParseEntry(idx, entry).records == idx.records[entry.0.id.value := RecordOf(entry.1)]
    ensures !(entry.0.Anilist? && entry.0.id.Some?) ==> ParseEntry(idx, entry) == idx
  {
    if entry.0.Anilist? && entry.0.id.Some? {
      IndexedShows(idx, entry.0.id.value, entry.1, 0);
    }
  }

  /** Where every AniList key reads as its own id, each id stays filed only under shows its record maps. */
  lemma {:induction false} ParseIsConsistent(graph: Graph)
    requires DistinctIds(graph)
    ensures Consistent(ParseAll(graph))
  {
    if graph != [] {
      var rest := graph[..|graph| - 1];
      var before, entry := ParseAll(rest), graph[|graph| - 1];
      ParseIsConsistent(rest);
      RecordsGrow(before, entry);
      if entry.0.Anilist? && entry.0.id.Some? {
        var id, after := entry.0.id.value, ParseEntry(before, entry);
        ParsedIds(rest, id);
        forall show, other | other in Ids(after.tvdb, show)
          ensures other in after.records && show in after.records[other].tvdbShows
        {
          IndexedShows(before, id, entry.1, show);
          if other in Ids(before.tvdb, show) {
            assert other in before.records;
          }
        }
      }
    }
  }

  // Alias disjointness.

  lemma {:induction false} ParsedHas(pieces: seq<Option<Range>>, i: nat)
    requires i < |pieces| && pieces[i].Some?
    ensures pieces[i].value in Parsed(pieces)
  {
    if i > 0 {
      ParsedHas(pieces[1..], i - 1);
    }
  }

  lemma {:induction false} CountBounds(first: int, last: int, n: int)
    requires first <= last + 1 && n in Count(first, last)
    ensures first <= n <= last
    decreases last + 1 - first
  {
    if n != first {
      CountBounds(first + 1, last, n);
    }
  }

  /** A number of plain pieces falls in a readable piece of them. */
  lemma {:induction false} NumbersAreHeld(pieces: seq<Option<Range>>, n: int)
    requires forall i :: 0 <= i < |pieces| ==>
      pieces[i].Some? && pieces[i].value.end.Some? && pieces[i].value.start <= pieces[i].value.end.value
    requires n in Numbers(pieces)
    ensures exists r :: r in Parsed(pieces) && r.Has(n)
  {
    var r := pieces[0].value;
    if n in Count(r.start, r.end.value) {
      CountBounds(r.start, r.end.value, n);
      ParsedHas(pieces, 0);
      assert r.Has(n);
    } else {
      NumbersAreHeld(pieces[1..], n);
      var held :| held in Parsed(pieces[1..]) && held.Has(n);
      assert held in Parsed(pieces);
    }
  }

  /** A pair's TVDB number falls in the ranges its map folds to. */
  lemma {:induction false} PairedNumberIsHeld(tvdb: EpMap, tmdb: EpMap, pair: (int, int))
    requires pair in PairsOf(tvdb, tmdb)
    ensures exists r :: r in RangesOf(tvdb) && r.Has(pair.1)
  {
    var source := tvdb[0].0;
    var other := Lookup(tmdb, source);
    if other.Some? && pair in PairsAt(source, tvdb[0].1, other.value) {
      var text := tvdb[0].1;
      var i :| 0 <= i < |Numbers(text.pieces)| && pair.1 == Numbers(text.pieces)[i];
      NumbersAreHeld(text.pieces, pair.1);
      var r :| r in Parsed(text.pieces) && r.Has(pair.1);
      assert r in RangesOf(tvdb);
    } else {
      PairedNumberIsHeld(tvdb[1..], tmdb, pair);
      var r :| r in RangesOf(tvdb[1..]) && r.Has(pair.1);
      assert r in RangesOf(tvdb);
    }
  }

  /** A record's ranges of one show and season only grow. */
  predicate HasRange(r: Record, show: int, season: int, range: Range) {
    show in r.tvdbShows && season in r.tvdbShows[show] && range in r.tvdbShows[show][season]
  }

  lemma {:induction false} SpecialsTargetIsListed(targets: seq<Target>, s: SpecialsTarget)
    requires s in SpecialsMaps(targets, true)
    ensures TvdbShow(s.show, Some(0), s.eps) in targets
  {
    if !(targets[0].TvdbShow? && targets[0].season == Some(0) && s == SpecialsTarget(targets[0].show, targets[0].eps)) {
      SpecialsTargetIsListed(targets[1..], s);
    }
  }

  lemma {:induction false} FoldedHasRanges(targets: seq<Target>, show: int, season: int, eps: EpMap, range: Range)
    requires TvdbShow(Some(show), Some(season), eps) in targets && range in RangesOf(eps)
    ensures HasRange(Folded(targets), show, season, range)
  {
    var n := |targets| - 1;
    if targets[n] != TvdbShow(Some(show), Some(season), eps) {
      assert TvdbShow(Some(show), Some(season), eps) in targets[..n];
      FoldedHasRanges(targets[..n], show, season, eps, range);
    }
  }

  /** An alias is a pair of the record's two specials maps. */
  lemma AliasIsAPair(targets: seq<Target>, show: int, n: int)
    requires show in SpecialAliasing(targets) && n in SpecialAliasing(targets)[show].aliases
    ensures |SpecialsMaps(targets, true)| == 1 == |SpecialsMaps(targets, false)|
    ensures SpecialsMaps(targets, true)[0].show == Some(show)
    ensures (n, SpecialAliasing(targets)[show].aliases[n])
            in PairsOf(SpecialsMaps(targets, true)[0].eps, SpecialsMaps(targets, false)[0].eps)
  {
    var tvdb, tmdb := SpecialsMaps(targets, true), SpecialsMaps(targets, false);
    KeptExactly(PairsOf(tvdb[0].eps, tmdb[0].eps), n, SpecialAliasing(targets)[show].aliases[n]);
  }

  /** A record's own alias falls in its own season-0 ranges of the show. */
  lemma OwnAliasIsHeld(targets: seq<Target>, show: int, n: int)
    requires show in SpecialAliasing(targets) && n in SpecialAliasing(targets)[show].aliases
    ensures
      var special := SpecialAliasing(targets)[show].aliases[n];
      exists r :: HasRange(Folded(targets), show, 0, r) && r.Has(special)
  {
    AliasIsAPair(targets, show, n);
    var tvdb, tmdb := SpecialsMaps(targets, true)[0], SpecialsMaps(targets, false)[0];
    var special := SpecialAliasing(targets)[show].aliases[n];
    PairedNumberIsHeld(tvdb.eps, tmdb.eps, (n, special));
    var r :| r in RangesOf(tvdb.eps) && r.Has(special);
    SpecialsTargetIsListed(targets, tvdb);
    FoldedHasRanges(targets, show, 0, tvdb.eps, r);
  }

  /** Every record of the index is the fold of some targets. */
  predicate FoldedFrom(r: Record, targets: seq<Target>) {
    r == RecordOf(targets)
  }

  lemma {:induction false} RecordsAreFolded(graph: Graph, id: int)
    requires id in ParseAll(graph).records
    ensures exists targets :: FoldedFrom(ParseAll(graph).records[id], targets)
  {
    var before, entry := graph[..|graph| - 1], graph[|graph| - 1];
    RecordsGrow(ParseAll(before), entry);
    if entry.0 == Anilist(Some(id)) {
      assert FoldedFrom(ParseAll(graph).records[id], entry.1);
    } else {
      RecordsAreFolded(before, id);
    }
  }

  /** An unfiltered alias target is held by its own entry, which is filed under the show. */
  lemma AliasIsHeldByItsOwner(graph: Graph, id: int, show: int, n: int)
    requires
      var idx := ParseAll(graph);
      && id in idx.records && show in idx.records[id].aliasing && n in idx.records[id].aliasing[show].aliases
    ensures
      var idx := ParseAll(graph);
      && id in Ids(idx.tvdb, show)
      && HoldsSpecial(idx, id, show, idx.records[id].aliasing[show].aliases[n])
  {
    var idx := ParseAll(graph);
    RecordsAreFolded(graph, id);
    var targets :| FoldedFrom(idx.records[id], targets);
    OwnAliasIsHeld(targets, show, n);
    ParseIsSound(graph);
  }

  /** A surviving alias lands in no other entry's season-0 ranges of the show. */
  lemma AliasAvoidsOtherSeasons(graph: Graph, id: int, show: int, n: int, other: int)
    requires
      var idx := Parse(graph);
      && id in idx.records && show in idx.records[id].aliasing && n in idx.records[id].aliasing[show].aliases
    requires other != id && other in Ids(Parse(graph).tvdb, show)
    ensures !HoldsSpecial(Parse(graph), other, show, Parse(graph).records[id].aliasing[show].aliases[n])
  {
    var raw := ParseAll(graph);
    var special := Parse(graph).records[id].aliasing[show].aliases[n];
    assert !ClaimedElsewhere(raw, id, show, special);
    assert !HoldsSpecial(raw, other, show, special);
  }

  /** Alias disjointness: no TVDB special of a show is the alias target of two AniList entries. */
  lemma AliasesAreDisjoint(graph: Graph, a: int, b: int, show: int, m: int, n: int)
    requires
      var idx := Parse(graph);
      && a in idx.records && show in idx.records[a].aliasing && m in idx.records[a].aliasing[show].aliases
      && b in idx.records && show in idx.records[b].aliasing && n in idx.records[b].aliasing[show].aliases
    requires a != b
    ensures Parse(graph).records[a].aliasing[show].aliases[m] != Parse(graph).records[b].aliasing[show].aliases[n]
  {
    AliasIsHeldByItsOwner(graph, b, show, n);
    AliasAvoidsOtherSeasons(graph, a, show, m, b);
  }
}
