/** The AniBridge index as the object that fills its records and reverse indexes in loops, filters the specials
  * aliasing, and flattens itself to the store's rows (anibridge.py). A loop over a dict or a set takes its members in
  * any order.
  */
module AniBridges {
  import opened Wrappers
  import opened Unambiguous
  import opened AniBridgeSpec
  import opened AniBridgeLaws
  import opened MappingStore
  import opened RowFlattening

  lemma {:induction false} RangesOfSnoc(eps: EpMap, i: nat)
    requires i < |eps|
    ensures RangesOf(eps[..i + 1]) == RangesOf(eps[..i]) + Parsed(eps[i].1.pieces)
  {
    if i > 0 {
      assert eps[1..][..i] == eps[..i + 1][1..] && eps[1..][..i - 1] == eps[..i][1..];
      RangesOfSnoc(eps[1..], i - 1);
    } else {
      assert eps[..1][1..] == [] && eps[..0] == [];
    }
  }

  function PairsHere(tvdb: (RangeText, RangeText), tmdb: EpMap): seq<(int, int)> {
    var other := Lookup(tmdb, tvdb.0);
    if other.None? then [] else PairsAt(tvdb.0, tvdb.1, other.value)
  }

  lemma Regrouped<T>(a: seq<T>, b: seq<T>, c: seq<T>)
    ensures a + (b + c) == (a + b) + c
  {
  }

  lemma PairsOfFirst(tvdb: EpMap, tmdb: EpMap)
    requires tvdb != []
    ensures PairsOf(tvdb, tmdb) == PairsHere(tvdb[0], tmdb) + PairsOf(tvdb[1..], tmdb)
  {
  }

  lemma {:induction false} PairsOfMore(tvdb: EpMap, tmdb: EpMap, e: (RangeText, RangeText))
    ensures PairsOf(tvdb + [e], tmdb) == PairsOf(tvdb, tmdb) + PairsHere(e, tmdb)
  {
    var more := tvdb + [e];
    PairsOfFirst(more, tmdb);
    if tvdb == [] {
      assert more[1..] == [] && more[0] == e;
    } else {
      assert more[1..] == tvdb[1..] + [e] && more[0] == tvdb[0];
      PairsOfMore(tvdb[1..], tmdb, e);
      PairsOfFirst(tvdb, tmdb);
      Regrouped(PairsHere(tvdb[0], tmdb), PairsOf(tvdb[1..], tmdb), PairsHere(e, tmdb));
    }
  }

  lemma PairsOfSnoc(tvdb: EpMap, tmdb: EpMap, i: nat)
    requires i < |tvdb|
    ensures PairsOf(tvdb[..i + 1], tmdb) == PairsOf(tvdb[..i], tmdb) + PairsHere(tvdb[i], tmdb)
  {
    assert tvdb[..i + 1] == tvdb[..i] + [tvdb[i]];
    PairsOfMore(tvdb[..i], tmdb, tvdb[i]);
  }

  /** Two indexes with the same reverse indexes and the same shows per record. */
  ghost predicate SameShows(a: Index, b: Index) {
    && a.tvdb == b.tvdb && a.tmdbMovie == b.tmdbMovie && a.imdb == b.imdb
    && a.records.Keys == b.records.Keys
    && forall id :: id in a.records ==> a.records[id].(aliasing := map[]) == b.records[id].(aliasing := map[])
  }

  /** The filter reads no record's aliasing, so it does not matter which records it already went over. */
  lemma FilterReadsShowsOnly(a: Index, b: Index, id: int, aliasing: map<int, Aliasing>)
    requires SameShows(a, b)
    ensures Unshared(a, id, aliasing) == Unshared(b, id, aliasing)
  {
    forall show, n: int ensures ClaimedElsewhere(a, id, show, n) == ClaimedElsewhere(b, id, show, n) {
      forall other | other in a.records ensures HoldsSpecial(a, other, show, n) == HoldsSpecial(b, other, show, n) {
        assert a.records[other].tvdbShows == a.records[other].(aliasing := map[]).tvdbShows;
        assert b.records[other].tvdbShows == b.records[other].(aliasing := map[]).tvdbShows;
      }
    }
    forall show | show in aliasing
      ensures KeptAliases(a, id, show, aliasing[show].aliases) == KeptAliases(b, id, show, aliasing[show].aliases)
    {
    }
  }

  /** The filter is through, but for some records. */
  ghost predicate FilteredExcept(now: Index, raw: Index, todo: set<int>) {
    && now == raw.(records := now.records) && now.records.Keys == raw.records.Keys
    && forall id :: id in raw.records ==>
         now.records[id] == if id in todo then raw.records[id] else Filtered(raw).records[id]
  }

  lemma FilterOne(now: Index, raw: Index, todo: set<int>, id: int)
    requires FilteredExcept(now, raw, todo) && id in todo && id in now.records
    ensures SameShows(now, raw)
    ensures
      var kept := now.records[id].(aliasing := Unshared(now, id, now.records[id].aliasing));
      FilteredExcept(now.(records := now.records[id := kept]), raw, todo - {id})
  {
    FilterReadsShowsOnly(now, raw, id, raw.records[id].aliasing);
  }

  function Without(aliasing: map<int, Aliasing>, todo: set<int>): map<int, Aliasing> {
    map show | show in aliasing && show !in todo :: aliasing[show]
  }

  lemma UnshareOne(idx: Index, id: int, aliasing: map<int, Aliasing>, todo: set<int>, show: int)
    requires show in todo && show in aliasing
    ensures
      var kept := KeptAliases(idx, id, show, aliasing[show].aliases);
      var before := Unshared(idx, id, Without(aliasing, todo));
      Unshared(idx, id, Without(aliasing, todo - {show})) ==
        if kept != map[] then before[show := Aliasing(aliasing[show].tmdbId, kept)] else before
  {
  }

  /** A record's season-0 ranges of a show, if it has any. */
  function SpecialsOf(idx: Index, id: int, show: int): Option<seq<Range>> {
    if id in idx.records && show in idx.records[id].tvdbShows && 0 in idx.records[id].tvdbShows[show] then
      Some(idx.records[id].tvdbShows[show][0])
    else None
  }

  ghost function SpecialsHeld(idx: Index, ids: set<int>, show: int): set<seq<Range>> {
    set id | id in ids && SpecialsOf(idx, id, show).Some? :: SpecialsOf(idx, id, show).value
  }

  lemma OneMoreHeld(idx: Index, ids: set<int>, show: int, id: int)
    ensures SpecialsHeld(idx, ids + {id}, show) ==
            SpecialsHeld(idx, ids, show)
              + (if SpecialsOf(idx, id, show).Some? then {SpecialsOf(idx, id, show).value} else {})
  {
  }

  lemma HeldIsClaimedElsewhere(idx: Index, id: int, show: int)
    ensures forall n: int ::
      (exists ranges :: ranges in SpecialsHeld(idx, Ids(idx.tvdb, show) - {id}, show) && SeasonHolds(ranges, n))
                             <==> ClaimedElsewhere(idx, id, show, n)
  {
    forall n: int | ClaimedElsewhere(idx, id, show, n)
      ensures exists ranges :: ranges in SpecialsHeld(idx, Ids(idx.tvdb, show) - {id}, show) && SeasonHolds(ranges, n)
    {
      var other :| other in idx.tvdb[show] && other != id && HoldsSpecial(idx, other, show, n);
      assert SpecialsOf(idx, other, show).value in SpecialsHeld(idx, Ids(idx.tvdb, show) - {id}, show);
    }
  }

  /** No show is kept with an empty aliasing. */
  ghost predicate AliasesAreSome(idx: Index) {
    forall id, show :: id in idx.records && show in idx.records[id].aliasing ==>
      idx.records[id].aliasing[show].aliases != map[]
  }

  class AniBridge {
    var byAnilist: map<int, Record>
    var tvdbIndex: map<int, set<int>>
    var tmdbMovieIndex: map<int, set<int>>
    var imdbIndex: map<string, set<int>>

    function View(): Index
      reads this
    {
      Index(byAnilist, tvdbIndex, tmdbMovieIndex, imdbIndex)
    }

    ghost predicate Valid()
      reads this
    {
      Sound(View()) && AliasesAreSome(View())
    }

    /** A graph-backed view. */
    constructor (graph: Graph)
      ensures View() == Parse(graph)
      ensures Valid()
    {
      byAnilist, tvdbIndex, tmdbMovieIndex, imdbIndex := map[], map[], map[], map[];
      new;
      FillFrom(graph);
      FilterKeepsSound(graph);
    }

    /** Fold one target into the record and the reverse indexes. */
    method AddTargetTo(record: Record, id: int, target: Target) returns (folded: Record)
      modifies this
      ensures folded == AddTarget(record, target)
      ensures View() == IndexTarget(old(View()), id, target)
    {
      folded := record;
      match target {
        case Anidb(anidb) =>
          if record.anidbId.None? && anidb.Some? {
            folded := record.(anidbId := anidb);
          }
        case TvdbShow(show, season, eps) =>
          if show.Some? {
            folded := AddShow(record, show.value, season, eps);
            tvdbIndex := Added(tvdbIndex, show.value, id);
          }
        case TmdbMovie(movie) =>
          if movie.Some? {
            folded := record.(tmdbMovieIds := record.tmdbMovieIds + [movie.value]);
            tmdbMovieIndex := Added(tmdbMovieIndex, movie.value, id);
          }
        case Imdb(imdb) =>
          if imdb != "" {
            folded := record.(imdbIds := record.imdbIds + [imdb]);
            imdbIndex := Added(imdbIndex, imdb, id);
          }
        case TmdbShow(_, _, _) =>
        case OtherTarget =>
      }
    }

    static method AddShow(record: Record, show: int, season: Option<int>, eps: EpMap) returns (folded: Record)
      ensures folded == AddTarget(record, TvdbShow(Some(show), season, eps))
    {
      var seasons := if show in record.tvdbShows then record.tvdbShows[show] else map[];
      if season.Some? {
        var held := if season.value in seasons then seasons[season.value] else [];
        var ranges := Extended(held, eps);
        seasons := seasons[season.value := ranges];
      }
      folded := record.(tvdbShows := record.tvdbShows[show := seasons]);
    }

    /** The ranges with those of every target text behind them. */
    static method Extended(held: seq<Range>, eps: EpMap) returns (ranges: seq<Range>)
      ensures ranges == held + RangesOf(eps)
    {
      ranges := held;
      for i := 0 to |eps|
        invariant ranges == held + RangesOf(eps[..i])
      {
        RangesOfSnoc(eps, i);
        ranges := ranges + Parsed(eps[i].1.pieces);
      }
      assert eps[..|eps|] == eps;
    }

    /** Both loops of the parse: every AniList key's record, then every record's aliasing filtered. */
    method FillFrom(graph: Graph)
      requires View() == EMPTY_INDEX
      modifies this
      ensures View() == Parse(graph)
      ensures AliasesAreSome(View())
    {
      for i := 0 to |graph|
        invariant View() == ParseAll(graph[..i])
      {
        assert graph[..i + 1][..i] == graph[..i];
        if graph[i].0.Anilist? && graph[i].0.id.Some? {
          FillRecord(graph[i].0.id.value, graph[i].1);
        }
      }
      assert graph[..|graph|] == graph;
      ParseIsSound(graph);
      FilterRecords();
    }

    method FillRecord(id: int, targets: seq<Target>)
      modifies this
      ensures View() == ParseEntry(old(View()), (Anilist(Some(id)), targets))
    {
      var record := EMPTY_RECORD;
      ghost var before := View();
      for j := 0 to |targets|
        invariant record == Folded(targets[..j])
        invariant View() == IndexTargets(before, id, targets[..j])
      {
        assert targets[..j + 1][..j] == targets[..j];
        record := AddTargetTo(record, id, targets[j]);
      }
      assert targets[..|targets|] == targets;
      var aliasing := AliasingFor(targets);
      byAnilist := byAnilist[id := record.(aliasing := aliasing)];
    }

    /** Pair the specials range by range, then drop what pairs two ways. */
    static method AliasingFor(targets: seq<Target>) returns (aliasing: map<int, Aliasing>)
      ensures aliasing == SpecialAliasing(targets)
    {
      var tvdb, tmdb := SpecialsMaps(targets, true), SpecialsMaps(targets, false);
      if |tvdb| != 1 || |tmdb| != 1 || tvdb[0].show.None? || tmdb[0].show.None? {
        return map[];
      }
      var pairs := PairUp(tvdb[0].eps, tmdb[0].eps);
      var aliases := FoldUnambiguous(pairs);
      aliasing := if aliases == map[] then map[] else map[tvdb[0].show.value := Aliasing(tmdb[0].show.value, aliases)];
    }

    static method PairUp(tvdb: EpMap, tmdb: EpMap) returns (pairs: seq<(int, int)>)
      ensures pairs == PairsOf(tvdb, tmdb)
    {
      pairs := [];
      for i := 0 to |tvdb|
        invariant pairs == PairsOf(tvdb[..i], tmdb)
      {
        PairsOfSnoc(tvdb, tmdb, i);
        var other := Lookup(tmdb, tvdb[i].0);
        if other.Some? {
          pairs := pairs + PairsAt(tvdb[i].0, tvdb[i].1, other.value);
        }
      }
      assert tvdb[..|tvdb|] == tvdb;
    }

    method FilterRecords()
      requires Sound(View())
      modifies this`byAnilist
      ensures View() == Filtered(old(View()))
      ensures AliasesAreSome(View())
    {
      ghost var raw := View();
      var todo := byAnilist.Keys;
      while todo != {}
        invariant todo <= raw.records.Keys
        invariant FilteredExcept(View(), raw, todo)
      {
        var id := AnyOf(todo);
        FilterOne(View(), raw, todo, id);
        var unshared := UnsharedAliasing(id, byAnilist[id].aliasing);
        byAnilist := byAnilist[id := byAnilist[id].(aliasing := unshared)];
        todo := todo - {id};
      }
      assert byAnilist == Filtered(raw).records;
    }

    /** The season-0 range lists the other records of a show hold. */
    method ClaimedSpecials(id: int, show: int) returns (claimed: set<seq<Range>>)
      requires Sound(View())
      ensures claimed == SpecialsHeld(View(), Ids(tvdbIndex, show) - {id}, show)
    {
      claimed := {};
      var others := Ids(tvdbIndex, show) - {id};
      ghost var gone: set<int> := {};
      while others != {}
        invariant others + gone == Ids(tvdbIndex, show) - {id}
        invariant claimed == SpecialsHeld(View(), gone, show)
      {
        var other := AnyOf(others);
        var held := SpecialsOf(View(), other, show);
        OneMoreHeld(View(), gone, show, other);
        if held.Some? {
          claimed := claimed + {held.value};
        }
        others, gone := others - {other}, gone + {other};
      }
    }

    method UnsharedAliasing(id: int, aliasing: map<int, Aliasing>) returns (unshared: map<int, Aliasing>)
      requires Sound(View())
      ensures unshared == Unshared(View(), id, aliasing)
      ensures forall show :: show in unshared ==> unshared[show].aliases != map[]
    {
      unshared := map[];
      var todo := aliasing.Keys;
      while todo != {}
        invariant todo <= aliasing.Keys
        invariant unshared == Unshared(View(), id, Without(aliasing, todo))
      {
        var show := AnyOf(todo);
        UnshareOne(View(), id, aliasing, todo, show);
        var kept := UnsharedAliases(id, show, aliasing[show].aliases);
        if kept != map[] {
          unshared := unshared[show := Aliasing(aliasing[show].tmdbId, kept)];
        }
        todo := todo - {show};
      }
      assert Without(aliasing, todo) == aliasing;
    }

    method UnsharedAliases(id: int, show: int, aliases: map<int, int>) returns (kept: map<int, int>)
      requires Sound(View())
      ensures kept == KeptAliases(View(), id, show, aliases)
    {
      var claimed := ClaimedSpecials(id, show);
      HeldIsClaimedElsewhere(View(), id, show);
      kept :=
        map n | n in aliases && !(exists ranges :: ranges in claimed && SeasonHolds(ranges, aliases[n])) :: aliases[n];
    }

    /** The rows the SQL backing is filled with. */
    method ToRows() returns (rows: Rows)
      requires Valid()
      ensures Faithful(View(), rows)
    {
      var entries, ranges, aliases := RecordRows();
      var xrefs := IndexRows();
      rows := Rows(entries, xrefs, ranges, aliases);
    }

    method RecordRows()
      returns (entries: seq<EntryRow>, ranges: seq<ShowRow<RangeCell>>, aliases: seq<ShowRow<AliasCell>>)
      requires AliasesAreSome(View())
      ensures EntriesFit(View(), byAnilist.Keys, entries)
      ensures RangesFit(View(), byAnilist.Keys, ranges) && AliasesFit(View(), byAnilist.Keys, aliases)
    {
      entries, ranges, aliases := [], [], [];
      var todo := byAnilist.Keys;
      while todo != {}
        invariant todo <= byAnilist.Keys
        invariant EntriesFit(View(), byAnilist.Keys - todo, entries)
        invariant RangesFit(View(), byAnilist.Keys - todo, ranges)
        invariant AliasesFit(View(), byAnilist.Keys - todo, aliases)
      {
        var id := AnyOf(todo);
        var record := byAnilist[id];
        ghost var rangesBefore, aliasesBefore := ranges, aliases;
        ghost var gainedRanges, gainedAliases;
        ghost var done := byAnilist.Keys - todo;
        entries := entries + [EntryRowOf(id, record)];
        ranges, gainedRanges := RecordRanges(ranges, id, record.tvdbShows);
        aliases, gainedAliases := RecordAliases(aliases, id, record.aliasing);
        RangesGoOn(View(), done, rangesBefore, ranges, id, gainedRanges);
        AliasesGoOn(View(), done, aliasesBefore, aliases, id, gainedAliases);
        todo := todo - {id};
        assert byAnilist.Keys - todo == done + {id};
      }
    }

    method IndexRows() returns (xrefs: seq<XrefRow>)
      ensures forall axis, ext, id :: XrefCount(xrefs, axis, ext, id) == if id in Slot(View(), axis, ext) then 1 else 0
    {
      var tvdb: map<ExtId, set<int>> := map n <- tvdbIndex.Keys :: IntId(n) := tvdbIndex[n];
      var movies: map<ExtId, set<int>> := map n <- tmdbMovieIndex.Keys :: IntId(n) := tmdbMovieIndex[n];
      var imdbs: map<ExtId, set<int>> := map s <- imdbIndex.Keys :: StrId(s) := imdbIndex[s];
      xrefs := AxisXrefs([], TvdbAxis, tvdb);
      xrefs := AxisXrefs(xrefs, TmdbMovieAxis, movies);
      xrefs := AxisXrefs(xrefs, ImdbAxis, imdbs);
    }
  }

  /** The range rows of some records. */
  ghost predicate RangesFit(idx: Index, ids: set<int>, ranges: seq<ShowRow<RangeCell>>) {
    forall id, show ::
      if id in ids then Mappings(RowsAt(ranges, id, show)) == ShowSeasons(idx, id, show)
      else RowsAt(ranges, id, show) == []
  }

  ghost predicate AliasesFit(idx: Index, ids: set<int>, aliases: seq<ShowRow<AliasCell>>) {
    forall id, show ::
      if id in ids then AliasingOf(RowsAt(aliases, id, show)) == ShowAliasing(idx, id, show)
      else RowsAt(aliases, id, show) == []
  }

  lemma RangesGoOn(idx: Index, ids: set<int>, before: seq<ShowRow<RangeCell>>, after: seq<ShowRow<RangeCell>>, id: int,
                   gained: map<int, seq<RangeCell>>)
    requires RangesFit(idx, ids, before) && id in idx.records && id !in ids
    requires Gained(before, after, id, gained) && gained.Keys == idx.records[id].tvdbShows.Keys
    requires forall show :: show in gained ==> Mappings(gained[show]) == idx.records[id].tvdbShows[show]
    ensures RangesFit(idx, ids + {id}, after)
  {
  }

  lemma AliasesGoOn(idx: Index, ids: set<int>, before: seq<ShowRow<AliasCell>>, after: seq<ShowRow<AliasCell>>,
                    id: int, gained: map<int, seq<AliasCell>>)
    requires AliasesFit(idx, ids, before) && id in idx.records && id !in ids
    requires Gained(before, after, id, gained) && gained.Keys == idx.records[id].aliasing.Keys
    requires forall show :: show in gained ==> AliasingOf(gained[show]) == Some(idx.records[id].aliasing[show])
    ensures AliasesFit(idx, ids + {id}, after)
  {
  }

  /** One entry row for each of the ids. */
  ghost predicate EntriesFit(idx: Index, ids: set<int>, entries: seq<EntryRow>) {
    && ids <= idx.records.Keys
    && (forall e :: e in entries <==> e.anilistId in ids && e == EntryRowOf(e.anilistId, idx.records[e.anilistId]))
    && (forall i, j :: 0 <= i < j < |entries| ==> entries[i].anilistId != entries[j].anilistId)
  }
}
