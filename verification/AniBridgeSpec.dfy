/** The AniBridge index as a value: what one AniList record folds to, the reverse indexes over all of them, the
  * specials aliasing and its filter, and the graph-backed lookups (anibridge.py).
  *
  * Descriptors and range texts are taken as read: a target is its parsed parts, a range text its comma pieces.
  */
module AniBridgeSpec {
  import opened Wrappers
  import opened Unambiguous

  /** An inclusive range; an end of None is open. */
  datatype Range = Range(start: int, end: Option<int>) {
    predicate Has(n: int) {
      start <= n && (end.None? || n <= end.value)
    }
  }

  /** One range text: its spelling, whether it carries a ratio suffix, and its pieces before it, None for junk. */
  datatype RangeText = RangeText(raw: string, ratio: bool, pieces: seq<Option<Range>>)

  /** A source -> target range map, in its order. */
  type EpMap = seq<(RangeText, RangeText)>

  datatype Target =
    | Anidb(id: Option<int>)
    | TvdbShow(show: Option<int>, season: Option<int>, eps: EpMap)
    | TmdbShow(show: Option<int>, season: Option<int>, eps: EpMap)
    | TmdbMovie(movie: Option<int>)
    | Imdb(imdb: string)
    | OtherTarget

  /** A source descriptor; an AniList one whose id is no number reads None. */
  datatype Source = Anilist(id: Option<int>) | OtherSource

  type Graph = seq<(Source, seq<Target>)>

  datatype Aliasing = Aliasing(tmdbId: int, aliases: map<int, int>)

  type Seasons = map<int, seq<Range>>

  datatype Record = Record(
    anidbId: Option<int>,
    tvdbShows: map<int, Seasons>,
    tmdbMovieIds: seq<int>,
    imdbIds: seq<string>,
    aliasing: map<int, Aliasing>)

  const EMPTY_RECORD := Record(None, map[], [], [], map[])

  /** The records and the reverse indexes. */
  datatype Index = Index(
    records: map<int, Record>,
    tvdb: map<int, set<int>>,
    tmdbMovie: map<int, set<int>>,
    imdb: map<string, set<int>>)

  const EMPTY_INDEX := Index(map[], map[], map[], map[])

  // Ranges.

  /** `_parse_ranges`: the readable pieces. */
  function Parsed(pieces: seq<Option<Range>>): seq<Range> {
    if pieces == [] then []
    else (if pieces[0].Some? then [pieces[0].value] else []) + Parsed(pieces[1..])
  }

  predicate Plain(text: RangeText) {
    !text.ratio &&
    forall i :: 0 <= i < |text.pieces| ==>
      text.pieces[i].Some? && text.pieces[i].value.end.Some?
        && text.pieces[i].value.start <= text.pieces[i].value.end.value
  }

  function Count(first: int, last: int): seq<int>
    requires first <= last + 1
    decreases last + 1 - first
  {
    if first > last then [] else [first] + Count(first + 1, last)
  }

  /** The numbers of plain pieces, in order. */
  function Numbers(pieces: seq<Option<Range>>): seq<int>
    requires forall i :: 0 <= i < |pieces| ==>
      pieces[i].Some? && pieces[i].value.end.Some? && pieces[i].value.start <= pieces[i].value.end.value
  {
    if pieces == [] then []
    else Count(pieces[0].value.start, pieces[0].value.end.value) + Numbers(pieces[1..])
  }

  /** `season_holds`: a season without ranges holds every number. */
  predicate SeasonHolds(ranges: seq<Range>, n: int) {
    ranges == [] || exists r :: r in ranges && r.Has(n)
  }

  // One record.

  function RangesOf(eps: EpMap): seq<Range> {
    if eps == [] then [] else Parsed(eps[0].1.pieces) + RangesOf(eps[1..])
  }

  /** `_add_target` on the record. */
  function AddTarget(r: Record, t: Target): Record {
    match t
    case Anidb(id) => if r.anidbId.None? && id.Some? then r.(anidbId := id) else r
    case TvdbShow(show, season, eps) =>
      if show.None? then r
      else
        var seasons := if show.value in r.tvdbShows then r.tvdbShows[show.value] else map[];
        if season.None? then r.(tvdbShows := r.tvdbShows[show.value := seasons])
        else
          var ranges := (if season.value in seasons then seasons[season.value] else []) + RangesOf(eps);
          r.(tvdbShows := r.tvdbShows[show.value := seasons[season.value := ranges]])
    case TmdbMovie(movie) => if movie.Some? then r.(tmdbMovieIds := r.tmdbMovieIds + [movie.value]) else r
    case Imdb(id) => if id != "" then r.(imdbIds := r.imdbIds + [id]) else r
    case _ => r
  }

  function Folded(targets: seq<Target>): Record {
    if targets == [] then EMPTY_RECORD else AddTarget(Folded(targets[..|targets| - 1]), targets[|targets| - 1])
  }

  datatype SpecialsTarget = SpecialsTarget(show: Option<int>, eps: EpMap)

  /** `_specials_maps` for one provider. */
  function SpecialsMaps(targets: seq<Target>, tvdb: bool): seq<SpecialsTarget> {
    if targets == [] then []
    else
      var t := targets[0];
      (if ((tvdb && t.TvdbShow?) || (!tvdb && t.TmdbShow?)) && t.season == Some(0) then [SpecialsTarget(t.show, t.eps)]
       else [])
      + SpecialsMaps(targets[1..], tvdb)
  }

  function Lookup(eps: EpMap, source: RangeText): Option<RangeText> {
    if eps == [] then None
    else if eps[0].0 == source then Some(eps[0].1)
    else Lookup(eps[1..], source)
  }

  function Zip(a: seq<int>, b: seq<int>): seq<(int, int)>
    requires |a| == |b|
  {
    seq(|a|, i requires 0 <= i < |a| => (a[i], b[i]))
  }

  /** One source range both shows map: its numbers paired by position, when all three are plain and equally wide. */
  function PairsAt(source: RangeText, tvdb: RangeText, tmdb: RangeText): seq<(int, int)> {
    if !Plain(source) || !Plain(tvdb) || !Plain(tmdb) then []
    else if |Numbers(source.pieces)| == |Numbers(tvdb.pieces)| == |Numbers(tmdb.pieces)| then
      Zip(Numbers(tmdb.pieces), Numbers(tvdb.pieces))
    else []
  }

  function PairsOf(tvdb: EpMap, tmdb: EpMap): seq<(int, int)> {
    if tvdb == [] then []
    else
      var source := tvdb[0].0;
      var other := Lookup(tmdb, source);
      (if other.None? then [] else PairsAt(source, tvdb[0].1, other.value)) + PairsOf(tvdb[1..], tmdb)
  }

  /** `_special_aliasing`. */
  function SpecialAliasing(targets: seq<Target>): map<int, Aliasing> {
    var tvdb, tmdb := SpecialsMaps(targets, true), SpecialsMaps(targets, false);
    if |tvdb| != 1 || |tmdb| != 1 || tvdb[0].show.None? || tmdb[0].show.None? then map[]
    else
      var aliases := Kept(PairsOf(tvdb[0].eps, tmdb[0].eps));
      if aliases == map[] then map[] else map[tvdb[0].show.value := Aliasing(tmdb[0].show.value, aliases)]
  }

  function RecordOf(targets: seq<Target>): Record {
    Folded(targets).(aliasing := SpecialAliasing(targets))
  }

  // The index.

  function Added<K>(index: map<K, set<int>>, key: K, id: int): map<K, set<int>> {
    index[key := (if key in index then index[key] else {}) + {id}]
  }

  /** `_add_target` on the reverse indexes. */
  function IndexTarget(idx: Index, id: int, t: Target): Index {
    match t
    case TvdbShow(Some(show), _, _) => idx.(tvdb := Added(idx.tvdb, show, id))
    case TmdbMovie(Some(movie)) => idx.(tmdbMovie := Added(idx.tmdbMovie, movie, id))
    case Imdb(imdb) => if imdb != "" then idx.(imdb := Added(idx.imdb, imdb, id)) else idx
    case _ => idx
  }

  function IndexTargets(idx: Index, id: int, targets: seq<Target>): Index {
    if targets == [] then idx
    else IndexTarget(IndexTargets(idx, id, targets[..|targets| - 1]), id, targets[|targets| - 1])
  }

  /** One key of the graph: a later key of the same id overwrites the record and only adds to the indexes. */
  function ParseEntry(idx: Index, entry: (Source, seq<Target>)): Index {
    if !entry.0.Anilist? || entry.0.id.None? then idx
    else
      var id := entry.0.id.value;
      var indexed := IndexTargets(idx, id, entry.1);
      indexed.(records := indexed.records[id := RecordOf(entry.1)])
  }

  function ParseAll(graph: Graph): Index {
    if graph == [] then EMPTY_INDEX
    else ParseEntry(ParseAll(graph[..|graph| - 1]), graph[|graph| - 1])
  }

  /** Another record of the show maps special `n` in its own season 0. */
  predicate ClaimedElsewhere(idx: Index, id: int, show: int, n: int) {
    show in idx.tvdb &&
    exists other :: other in idx.tvdb[show] && other != id && HoldsSpecial(idx, other, show, n)
  }

  predicate HoldsSpecial(idx: Index, id: int, show: int, n: int) {
    && id in idx.records && show in idx.records[id].tvdbShows
    && 0 in idx.records[id].tvdbShows[show]
    && SeasonHolds(idx.records[id].tvdbShows[show][0], n)
  }

  function KeptAliases(idx: Index, id: int, show: int, aliases: map<int, int>): map<int, int> {
    map n | n in aliases && !ClaimedElsewhere(idx, id, show, aliases[n]) :: aliases[n]
  }

  /** `_unshared_aliasing`. */
  function Unshared(idx: Index, id: int, aliasing: map<int, Aliasing>): map<int, Aliasing> {
    map show | show in aliasing && KeptAliases(idx, id, show, aliasing[show].aliases) != map[] ::
      Aliasing(aliasing[show].tmdbId, KeptAliases(idx, id, show, aliasing[show].aliases))
  }

  /** Every record filtered against the parsed index. */
  function Filtered(idx: Index): Index {
    idx.(records :=
      map id | id in idx.records :: idx.records[id].(aliasing := Unshared(idx, id, idx.records[id].aliasing)))
  }

  function Parse(graph: Graph): Index {
    Filtered(ParseAll(graph))
  }

  // The graph-backed lookups.

  datatype TvdbMaps = TvdbMaps(mappings: Seasons, aliasing: Option<Aliasing>)

  datatype Entry = Entry(anidbId: Option<int>, imdbId: Option<string>, tmdbMovieId: Option<int>, tvdb: Option<TvdbMaps>)

  function First<T>(values: seq<T>): Option<T> {
    if values == [] then None else Some(values[0])
  }

  /** `_consumer_entry`. */
  function ConsumerEntry(r: Record, show: Option<int>): Entry {
    Entry(r.anidbId, First(r.imdbIds), First(r.tmdbMovieIds),
          if show.Some? && show.value in r.tvdbShows then
            Some(TvdbMaps(r.tvdbShows[show.value],
                          if show.value in r.aliasing then Some(r.aliasing[show.value]) else None))
          else None)
  }

  function Ids<K>(index: map<K, set<int>>, key: K): set<int> {
    if key in index then index[key] else {}
  }

  /** `{id: entry}` for the ids of one index slot. */
  function GraphLookup(idx: Index, ids: set<int>, show: Option<int>): map<int, Entry>
    requires ids <= idx.records.Keys
  {
    map id | id in ids :: ConsumerEntry(idx.records[id], show)
  }
}
