/** What one AniList record folds to, told from its targets front to back: which ids it keeps, in what order, and which
  * ranges each season of a show has.
  */
module RecordLaws {
  import opened Wrappers
  import opened AniBridgeSpec

  function AnidbIds(targets: seq<Target>): seq<int> {
    if targets == [] then []
    else
      AnidbIds(targets[..|targets| - 1])
      + (match targets[|targets| - 1]
         case Anidb(Some(id)) => [id]
         case _ => [])
  }

  function MovieIds(targets: seq<Target>): seq<int> {
    if targets == [] then []
    else
      MovieIds(targets[..|targets| - 1])
      + (match targets[|targets| - 1]
         case TmdbMovie(Some(movie)) => [movie]
         case _ => [])
  }

  function ImdbIds(targets: seq<Target>): seq<string> {
    if targets == [] then []
    else
      ImdbIds(targets[..|targets| - 1])
      + (match targets[|targets| - 1]
         case Imdb(imdb) => if |imdb| == 0 then [] else [imdb]
         case _ => [])
  }

  /** The readable ranges of a season's own targets, in their order. */
  function SeasonRanges(targets: seq<Target>, show: int, season: int): seq<Range> {
    if targets == [] then []
    else
      SeasonRanges(targets[..|targets| - 1], show, season)
      + (match targets[|targets| - 1]
         case TvdbShow(Some(s), Some(n), eps) => if s == show && n == season then Readable(eps) else []
         case _ => [])
  }

  /** The readable pieces of a map's target texts, in their order. */
  function Readable(eps: EpMap): seq<Range> {
    if eps == [] then [] else Readable(eps[..|eps| - 1]) + ReadablePieces(eps[|eps| - 1].1.pieces)
  }

  function ReadablePieces(pieces: seq<Option<Range>>): seq<Range> {
    if pieces == [] then []
    else
      ReadablePieces(pieces[..|pieces| - 1])
      + match pieces[|pieces| - 1] {
          case Some(range) => [range]
          case None => []
        }
  }

  predicate NamesSeason(targets: seq<Target>, show: int, season: int) {
    exists i :: 0 <= i < |targets| && targets[i].TvdbShow? && targets[i].show == Some(show)
      && targets[i].season == Some(season)
  }

  predicate NamesShow(targets: seq<Target>, show: int) {
    exists i :: 0 <= i < |targets| && targets[i].TvdbShow? && targets[i].show == Some(show)
  }

  lemma {:induction false} PiecesFromEitherEnd(pieces: seq<Option<Range>>)
    ensures Parsed(pieces) == ReadablePieces(pieces)
  {
    if pieces != [] {
      var n := |pieces| - 1;
      PiecesFromEitherEnd(pieces[..n]);
      ParsedOfMore(pieces[..n], pieces[n]);
      assert pieces == pieces[..n] + [pieces[n]];
    }
  }

  lemma {:induction false} ParsedOfMore(pieces: seq<Option<Range>>, piece: Option<Range>)
    ensures Parsed(pieces + [piece]) == Parsed(pieces) + if piece.Some? then [piece.value] else []
  {
    if pieces == [] {
      assert pieces + [piece] == [piece] && [piece][1..] == [];
    } else {
      var more := pieces + [piece];
      assert more[1..] == pieces[1..] + [piece] && more[0] == pieces[0];
      ParsedOfMore(pieces[1..], piece);
      var head := if pieces[0].Some? then [pieces[0].value] else [];
      assert Parsed(more) == head + Parsed(more[1..]) && Parsed(pieces) == head + Parsed(pieces[1..]);
    }
  }

  lemma {:induction false} RangesOfMore(eps: EpMap, e: (RangeText, RangeText))
    ensures RangesOf(eps + [e]) == RangesOf(eps) + Parsed(e.1.pieces)
  {
    if eps == [] {
      assert eps + [e] == [e] && [e][1..] == [];
    } else {
      assert (eps + [e])[1..] == eps[1..] + [e];
      RangesOfMore(eps[1..], e);
    }
  }

  lemma {:induction false} RangesFromEitherEnd(eps: EpMap)
    ensures RangesOf(eps) == Readable(eps)
  {
    if eps != [] {
      var n := |eps| - 1;
      RangesFromEitherEnd(eps[..n]);
      RangesOfMore(eps[..n], eps[n]);
      PiecesFromEitherEnd(eps[n].1.pieces);
      assert eps == eps[..n] + [eps[n]];
    }
  }

  /** The first AniDB id named wins, and the TMDB movie and IMDb ids are those named, in order. */
  lemma {:induction false} IdsAre(targets: seq<Target>)
    ensures
      var r := RecordOf(targets);
      && r.anidbId == (if AnidbIds(targets) == [] then None else Some(AnidbIds(targets)[0]))
      && r.tmdbMovieIds == MovieIds(targets)
      && r.imdbIds == ImdbIds(targets)
  {
    if targets != [] {
      var n := |targets| - 1;
      IdsAre(targets[..n]);
    }
  }

  /** A lookup's IMDb and movie ids are the record's first. */
  lemma EntryTakesTheFirst(r: Record, show: Option<int>)
    ensures
      var e := ConsumerEntry(r, show);
      && e.anidbId == r.anidbId
      && e.imdbId == (if |r.imdbIds| > 0 then Some(r.imdbIds[0]) else None)
      && e.tmdbMovieId == (if |r.tmdbMovieIds| > 0 then Some(r.tmdbMovieIds[0]) else None)
      && (e.tvdb.Some? <==> show.Some? && show.value in r.tvdbShows)
      && (e.tvdb.Some? ==>
            && e.tvdb.value.mappings == r.tvdbShows[show.value]
            && (e.tvdb.value.aliasing.Some? <==> show.value in r.aliasing)
            && (show.value in r.aliasing ==> e.tvdb.value.aliasing == Some(r.aliasing[show.value])))
  {
  }

  /** The ranges a record has for a season of a show, None where it does not have the season. */
  function HeldRanges(r: Record, show: int, season: int): Option<seq<Range>> {
    if show in r.tvdbShows && season in r.tvdbShows[show] then Some(r.tvdbShows[show][season]) else None
  }

  /** What one more target makes of a season. */
  lemma SeasonOfMore(r: Record, t: Target, show: int, season: int)
    ensures
      var after := AddTarget(r, t);
      var here := t.TvdbShow? && t.show == Some(show);
      && (show in after.tvdbShows <==> show in r.tvdbShows || here)
      && HeldRanges(after, show, season) ==
           if here && t.season == Some(season) then Some(HeldRanges(r, show, season).GetOr([]) + RangesOf(t.eps))
           else HeldRanges(r, show, season)
  {
  }

  /** A record has the shows and seasons its targets name, and a season the readable ranges of its own targets. */
  predicate SeasonIs(r: Record, targets: seq<Target>, show: int, season: int) {
    && (show in r.tvdbShows <==> NamesShow(targets, show))
    && HeldRanges(r, show, season) ==
         (if NamesSeason(targets, show, season) then Some(SeasonRanges(targets, show, season)) else None)
    && (NamesSeason(targets, show, season) || SeasonRanges(targets, show, season) == [])
  }

  lemma SeasonGoesOn(rest: seq<Target>, t: Target, r: Record, after: Record, show: int, season: int)
    requires SeasonIs(r, rest, show, season) && after == AddTarget(r, t)
    ensures SeasonIs(after, rest + [t], show, season)
  {
    SeasonOfMore(r, t, show, season);
    NamesOfMore(rest, t, show, season);
    var more := rest + [t];
    assert more[..|more| - 1] == rest && more[|more| - 1] == t;
    var here := t.TvdbShow? && t.show == Some(show) && t.season == Some(season);
    if t.TvdbShow? {
      RangesFromEitherEnd(t.eps);
    }
    assert SeasonRanges(more, show, season) ==
           SeasonRanges(rest, show, season) + (if here then Readable(t.eps) else []);
    assert HeldRanges(r, show, season).GetOr([]) == SeasonRanges(rest, show, season);
    if !here {
      assert SeasonRanges(more, show, season) == SeasonRanges(rest, show, season);
    }
  }

  lemma {:induction false} SeasonsAre(targets: seq<Target>, show: int, season: int)
    ensures SeasonIs(RecordOf(targets), targets, show, season)
  {
    if targets != [] {
      var n := |targets| - 1;
      SeasonsAre(targets[..n], show, season);
      assert targets == targets[..n] + [targets[n]];
      SeasonGoesOn(targets[..n], targets[n], Folded(targets[..n]), Folded(targets), show, season);
    }
  }

  lemma NamesOfMore(before: seq<Target>, t: Target, show: int, season: int)
    ensures NamesShow(before + [t], show) <==> NamesShow(before, show) || (t.TvdbShow? && t.show == Some(show))
    ensures NamesSeason(before + [t], show, season) <==>
      NamesSeason(before, show, season) || (t.TvdbShow? && t.show == Some(show) && t.season == Some(season))
  {
    var more := before + [t];
    assert more[|before|] == t;
    assert forall i :: 0 <= i < |before| ==> more[i] == before[i];
  }

  /** And the record itself is that of its targets, with their aliasing. */
  lemma RecordIs(targets: seq<Target>)
    ensures RecordOf(targets).tvdbShows == Folded(targets).tvdbShows
    ensures RecordOf(targets).aliasing == SpecialAliasing(targets)
  {
  }
}
