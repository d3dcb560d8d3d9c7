/** Which TMDB special numbers a record aliases to which TVDB ones, told from its targets' range texts, and which of
  * them survive the filter.
  */
module AliasLaws {
  import opened Wrappers
  import opened Unambiguous
  import opened AniBridgeSpec

  /** Every piece of the text is readable and bounded on both sides, and no ratio follows. */
  predicate Bounded(text: RangeText) {
    && !text.ratio
    && forall q :: 0 <= q < |text.pieces| ==>
         && text.pieces[q].Some? && text.pieces[q].value.end.Some?
         && text.pieces[q].value.start <= text.pieces[q].value.end.value
  }

  /** How many numbers the first `q` pieces hold. */
  function Width(text: RangeText, q: nat): nat
    requires Bounded(text) && q <= |text.pieces|
  {
    if q == 0 then 0
    else Width(text, q - 1) + text.pieces[q - 1].value.end.value - text.pieces[q - 1].value.start + 1
  }

  /** The text's number at place `k` is `x`: some piece holds that place, and `x` lies as far into it. */
  predicate HasAt(text: RangeText, k: nat, x: int)
    requires Bounded(text)
  {
    exists q :: 0 <= q < |text.pieces| && InPiece(text, q, k, x)
  }

  predicate InPiece(text: RangeText, q: nat, k: nat, x: int)
    requires Bounded(text) && q < |text.pieces|
  {
    Width(text, q) <= k < Width(text, q + 1) && x == text.pieces[q].value.start + k - Width(text, q)
  }

  /** Source range `a` of the TVDB map is range `b` of the TMDB one, all three texts are bounded and equally wide, and
    * at place `k` the TMDB text has `n` and the TVDB text `v`.
    */
  predicate PlacePairs(tvdb: EpMap, tmdb: EpMap, a: nat, b: nat, k: nat, n: int, v: int) {
    && a < |tvdb| && b < |tmdb| && tmdb[b].0 == tvdb[a].0
    && (forall c :: 0 <= c < b ==> tmdb[c].0 != tvdb[a].0)
    && var source, ours, theirs := tvdb[a].0, tvdb[a].1, tmdb[b].1;
    && Bounded(source) && Bounded(ours) && Bounded(theirs)
    && Width(source, |source.pieces|) == Width(ours, |ours.pieces|) == Width(theirs, |theirs.pieces|)
    && HasAt(theirs, k, n) && HasAt(ours, k, v)
  }

  ghost predicate SomePlacePairs(tvdb: EpMap, tmdb: EpMap, n: int, v: int) {
    exists a: nat, b: nat, k: nat :: PlacePairs(tvdb, tmdb, a, b, k, n, v)
  }

  // The numbers of a text, piece by piece.

  lemma {:induction false} CountAt(first: int, last: int, k: nat)
    requires first <= last + 1
    ensures |Count(first, last)| == last + 1 - first
    ensures k < last + 1 - first ==> Count(first, last)[k] == first + k
    decreases last + 1 - first
  {
    if first <= last {
      CountAt(first + 1, last, if k > 0 then k - 1 else 0);
    }
  }

  lemma {:induction false} NumbersOfMore(pieces: seq<Option<Range>>, piece: Option<Range>)
    requires forall i :: 0 <= i < |pieces| ==>
      pieces[i].Some? && pieces[i].value.end.Some? && pieces[i].value.start <= pieces[i].value.end.value
    requires piece.Some? && piece.value.end.Some? && piece.value.start <= piece.value.end.value
    ensures Numbers(pieces + [piece]) == Numbers(pieces) + Count(piece.value.start, piece.value.end.value)
  {
    if pieces == [] {
      assert pieces + [piece] == [piece];
      assert [piece][1..] == [];
    } else {
      assert (pieces + [piece])[1..] == pieces[1..] + [piece];
      NumbersOfMore(pieces[1..], piece);
    }
  }

  lemma {:induction false} WidthGrows(text: RangeText, p: nat, q: nat)
    requires Bounded(text) && p <= q <= |text.pieces|
    ensures Width(text, p) <= Width(text, q)
  {
    if p < q {
      WidthGrows(text, p, q - 1);
    }
  }

  /** A place in piece `p` holds that piece's number. */
  lemma {:induction false} NumberInPiece(text: RangeText, q: nat, p: nat, k: nat)
    requires Bounded(text) && p < q <= |text.pieces| && Width(text, p) <= k < Width(text, p + 1)
    ensures |Numbers(text.pieces[..q])| == Width(text, q) && k < Width(text, q)
    ensures Numbers(text.pieces[..q])[k] == text.pieces[p].value.start + k - Width(text, p)
  {
    var piece := text.pieces[q - 1];
    NumbersOfMore(text.pieces[..q - 1], piece);
    assert text.pieces[..q] == text.pieces[..q - 1] + [piece];
    NumbersWidth(text, q - 1);
    if p < q - 1 {
      NumberInPiece(text, q - 1, p, k);
      CountAt(piece.value.start, piece.value.end.value, 0);
    } else {
      CountAt(piece.value.start, piece.value.end.value, k - Width(text, p));
    }
  }

  lemma {:induction false} NumbersWidth(text: RangeText, q: nat)
    requires Bounded(text) && q <= |text.pieces|
    ensures |Numbers(text.pieces[..q])| == Width(text, q)
  {
    if q > 0 {
      var piece := text.pieces[q - 1];
      NumbersWidth(text, q - 1);
      NumbersOfMore(text.pieces[..q - 1], piece);
      assert text.pieces[..q] == text.pieces[..q - 1] + [piece];
      CountAt(piece.value.start, piece.value.end.value, 0);
    }
  }

  lemma {:induction false} PieceOf(text: RangeText, q: nat, k: nat) returns (p: nat)
    requires Bounded(text) && q <= |text.pieces| && k < Width(text, q)
    ensures p < q && Width(text, p) <= k < Width(text, p + 1)
  {
    p := q - 1;
    if k < Width(text, q - 1) {
      p := PieceOf(text, q - 1, k);
    }
  }

  lemma NumbersAre(text: RangeText, k: nat, x: int)
    requires Bounded(text)
    ensures |Numbers(text.pieces)| == Width(text, |text.pieces|)
    ensures HasAt(text, k, x) <==> k < |Numbers(text.pieces)| && Numbers(text.pieces)[k] == x
  {
    var n := |text.pieces|;
    assert text.pieces[..n] == text.pieces;
    NumbersWidth(text, n);
    if HasAt(text, k, x) {
      var p :| 0 <= p < n && InPiece(text, p, k, x);
      NumberInPiece(text, n, p, k);
    }
    if k < Width(text, n) {
      var p := PieceOf(text, n, k);
      NumberInPiece(text, n, p, k);
      assert InPiece(text, p, k, Numbers(text.pieces)[k]);
    }
  }

  // The pairs of two maps.

  lemma PairsAtIff(source: RangeText, tvdb: RangeText, tmdb: RangeText, n: int, v: int)
    ensures (n, v) in PairsAt(source, tvdb, tmdb) <==>
      && Bounded(source) && Bounded(tvdb) && Bounded(tmdb)
      && Width(source, |source.pieces|) == Width(tvdb, |tvdb.pieces|) == Width(tmdb, |tmdb.pieces|)
      && exists k: nat :: HasAt(tmdb, k, n) && HasAt(tvdb, k, v)
  {
    if Bounded(source) && Bounded(tvdb) && Bounded(tmdb) {
      NumbersAre(source, 0, 0);
      forall k: nat
        ensures |Numbers(tmdb.pieces)| == Width(tmdb, |tmdb.pieces|)
        ensures |Numbers(tvdb.pieces)| == Width(tvdb, |tvdb.pieces|)
        ensures HasAt(tmdb, k, n) <==> k < |Numbers(tmdb.pieces)| && Numbers(tmdb.pieces)[k] == n
        ensures HasAt(tvdb, k, v) <==> k < |Numbers(tvdb.pieces)| && Numbers(tvdb.pieces)[k] == v
      {
        NumbersAre(tmdb, k, n);
        NumbersAre(tvdb, k, v);
      }
      var pairs := PairsAt(source, tvdb, tmdb);
      if (n, v) in pairs {
        var k: nat :| k < |pairs| && pairs[k] == (n, v);
        assert HasAt(tmdb, k, n) && HasAt(tvdb, k, v);
      }
      if |Numbers(source.pieces)| == |Numbers(tvdb.pieces)| == |Numbers(tmdb.pieces)| {
        if k: nat :| HasAt(tmdb, k, n) && HasAt(tvdb, k, v) {
          assert pairs[k] == (n, v);
        }
      }
    }
  }

  /** Range `b` is the first of the map with that source. */
  predicate IsSource(eps: EpMap, source: RangeText, b: nat) {
    b < |eps| && eps[b].0 == source && forall c :: 0 <= c < b ==> eps[c].0 != source
  }

  lemma {:induction false} LookupAt(eps: EpMap, source: RangeText, b: nat)
    requires IsSource(eps, source, b)
    ensures Lookup(eps, source) == Some(eps[b].1)
  {
    if b > 0 {
      assert eps[0].0 != source;
      assert forall c :: 0 <= c < b - 1 ==> eps[1..][c] == eps[c + 1];
      LookupAt(eps[1..], source, b - 1);
    }
  }

  lemma {:induction false} LookupFinds(eps: EpMap, source: RangeText) returns (b: nat)
    requires Lookup(eps, source).Some?
    ensures IsSource(eps, source, b)
  {
    b := 0;
    if eps[0].0 != source {
      var c := LookupFinds(eps[1..], source);
      b := c + 1;
      forall e | 0 <= e < b ensures eps[e].0 != source {
        assert e > 0 ==> eps[1..][e - 1] == eps[e];
      }
    }
  }

  /** Source range `a` of the TVDB map pairs `n` with `v`. */
  predicate RangePairs(tvdb: EpMap, tmdb: EpMap, a: nat, n: int, v: int)
    requires a < |tvdb|
  {
    var other := Lookup(tmdb, tvdb[a].0);
    other.Some? && (n, v) in PairsAt(tvdb[a].0, tvdb[a].1, other.value)
  }

  lemma {:induction false} RangeOfPair(tvdb: EpMap, tmdb: EpMap, n: int, v: int) returns (a: nat)
    requires (n, v) in PairsOf(tvdb, tmdb)
    ensures a < |tvdb| && RangePairs(tvdb, tmdb, a, n, v)
  {
    a := 0;
    if !RangePairs(tvdb, tmdb, 0, n, v) {
      var other := Lookup(tmdb, tvdb[0].0);
      var head := if other.None? then [] else PairsAt(tvdb[0].0, tvdb[0].1, other.value);
      assert (n, v) !in head && PairsOf(tvdb, tmdb) == head + PairsOf(tvdb[1..], tmdb);
      var rest := RangeOfPair(tvdb[1..], tmdb, n, v);
      assert tvdb[1..][rest] == tvdb[rest + 1];
      a := rest + 1;
    }
  }

  lemma {:induction false} PairOfRange(tvdb: EpMap, tmdb: EpMap, a: nat, n: int, v: int)
    requires a < |tvdb| && RangePairs(tvdb, tmdb, a, n, v)
    ensures (n, v) in PairsOf(tvdb, tmdb)
  {
    var other := Lookup(tmdb, tvdb[0].0);
    var head := if other.None? then [] else PairsAt(tvdb[0].0, tvdb[0].1, other.value);
    assert PairsOf(tvdb, tmdb) == head + PairsOf(tvdb[1..], tmdb);
    if a > 0 {
      assert tvdb[1..][a - 1] == tvdb[a];
      PairOfRange(tvdb[1..], tmdb, a - 1, n, v);
    }
  }

  /** The pairs of a record's two specials maps, place by place. */
  lemma PairedIff(tvdb: EpMap, tmdb: EpMap, n: int, v: int)
    ensures (n, v) in PairsOf(tvdb, tmdb) <==> SomePlacePairs(tvdb, tmdb, n, v)
  {
    if (n, v) in PairsOf(tvdb, tmdb) {
      var a := RangeOfPair(tvdb, tmdb, n, v);
      var b := LookupFinds(tmdb, tvdb[a].0);
      LookupAt(tmdb, tvdb[a].0, b);
      PairsAtIff(tvdb[a].0, tvdb[a].1, tmdb[b].1, n, v);
      var k: nat :| HasAt(tmdb[b].1, k, n) && HasAt(tvdb[a].1, k, v);
      assert PlacePairs(tvdb, tmdb, a, b, k, n, v);
    }
    if SomePlacePairs(tvdb, tmdb, n, v) {
      var a: nat, b: nat, k: nat :| PlacePairs(tvdb, tmdb, a, b, k, n, v);
      LookupAt(tmdb, tvdb[a].0, b);
      PairsAtIff(tvdb[a].0, tvdb[a].1, tmdb[b].1, n, v);
      assert HasAt(tmdb[b].1, k, n) && HasAt(tvdb[a].1, k, v);
      PairOfRange(tvdb, tmdb, a, n, v);
    }
  }

  // A record's aliasing.

  /** Target `i` is the record's one season-0 target on its provider. */
  predicate OnlySpecials(targets: seq<Target>, tvdb: bool, i: nat) {
    && i < |targets| && IsSpecials(targets[i], tvdb)
    && forall j :: 0 <= j < |targets| && IsSpecials(targets[j], tvdb) ==> j == i
  }

  predicate IsSpecials(t: Target, tvdb: bool) {
    if tvdb then t.TvdbShow? && t.season == Some(0) else t.TmdbShow? && t.season == Some(0)
  }

  lemma {:induction false} SpecialsCount(targets: seq<Target>, tvdb: bool)
    ensures SpecialsMaps(targets, tvdb) == [] <==> forall j :: 0 <= j < |targets| ==> !IsSpecials(targets[j], tvdb)
    ensures forall i: nat :: OnlySpecials(targets, tvdb, i) ==>
      SpecialsMaps(targets, tvdb) == [SpecialsTarget(targets[i].show, targets[i].eps)]
    ensures |SpecialsMaps(targets, tvdb)| == 1 ==> exists i: nat :: OnlySpecials(targets, tvdb, i)
  {
    if targets != [] {
      SpecialsCount(targets[1..], tvdb);
      assert forall j :: 0 <= j < |targets| - 1 ==> targets[1..][j] == targets[j + 1];
      if IsSpecials(targets[0], tvdb) {
        forall i: nat | OnlySpecials(targets, tvdb, i)
          ensures SpecialsMaps(targets, tvdb) == [SpecialsTarget(targets[i].show, targets[i].eps)]
        {
          assert i == 0;
          assert forall j :: 0 <= j < |targets| - 1 ==> !IsSpecials(targets[1..][j], tvdb);
        }
        if |SpecialsMaps(targets, tvdb)| == 1 {
          assert SpecialsMaps(targets[1..], tvdb) == [];
          forall j | 0 < j < |targets| ensures !IsSpecials(targets[j], tvdb) {
            assert targets[1..][j - 1] == targets[j];
          }
          assert OnlySpecials(targets, tvdb, 0);
        }
      } else {
        forall i: nat | OnlySpecials(targets, tvdb, i) ensures i > 0 && OnlySpecials(targets[1..], tvdb, i - 1) {
        }
        if |SpecialsMaps(targets, tvdb)| == 1 {
          var i: nat :| OnlySpecials(targets[1..], tvdb, i);
          forall j | 0 <= j < |targets| && IsSpecials(targets[j], tvdb) ensures j == i + 1 {
            assert targets[1..][j - 1] == targets[j];
          }
          assert OnlySpecials(targets, tvdb, i + 1);
        }
      }
    }
  }

  /** A record's aliasing, in full: number `n` is aliased to `v` on a show exactly when the record has one season-0
    * target on each provider, both with a show, some place of a range both map pairs `n` with `v`, and none pairs `n`
    * with another number. The aliases are of the TMDB target's show.
    */
  lemma AliasIff(targets: seq<Target>, i: nat, j: nat, n: int, v: int)
    requires OnlySpecials(targets, true, i) && OnlySpecials(targets, false, j)
    requires targets[i].show.Some? && targets[j].show.Some?
    ensures
      var show, aliasing := targets[i].show.value, SpecialAliasing(targets);
      && aliasing.Keys <= {show}
      && (show in aliasing && n in aliasing[show].aliases && aliasing[show].aliases[n] == v <==>
            && SomePlacePairs(targets[i].eps, targets[j].eps, n, v)
            && forall x :: SomePlacePairs(targets[i].eps, targets[j].eps, n, x) ==> x == v)
      && (show in aliasing ==> aliasing[show].tmdbId == targets[j].show.value && aliasing[show].aliases != map[])
  {
    SpecialsCount(targets, true);
    SpecialsCount(targets, false);
    var pairs := PairsOf(targets[i].eps, targets[j].eps);
    KeptExactly(pairs, n, v);
    forall x ensures (n, x) in pairs <==> SomePlacePairs(targets[i].eps, targets[j].eps, n, x) {
      PairedIff(targets[i].eps, targets[j].eps, n, x);
    }
    forall p | 0 <= p < |pairs| && pairs[p].0 == n
      ensures SomePlacePairs(targets[i].eps, targets[j].eps, n, pairs[p].1)
    {
      assert pairs[p] == (n, pairs[p].1) && pairs[p] in pairs;
    }
    if Pairs(pairs, n, v) {
      forall x | SomePlacePairs(targets[i].eps, targets[j].eps, n, x) ensures x == v {
        var p :| 0 <= p < |pairs| && pairs[p] == (n, x);
      }
    }
  }

  /** Without one such target on each provider there is none. */
  lemma NoAliases(targets: seq<Target>)
    requires !exists i: nat, j: nat :: OnlySpecials(targets, true, i) && OnlySpecials(targets, false, j)
               && targets[i].show.Some? && targets[j].show.Some?
    ensures SpecialAliasing(targets) == map[]
  {
    SpecialsCount(targets, true);
    SpecialsCount(targets, false);
    if |SpecialsMaps(targets, true)| == 1 == |SpecialsMaps(targets, false)| {
      var i: nat :| OnlySpecials(targets, true, i);
      var j: nat :| OnlySpecials(targets, false, j);
    }
  }

  /** The record's season 0 of the show holds number `v`: a season without ranges holds all. */
  predicate SeasonZeroHas(r: Record, show: int, v: int) {
    && show in r.tvdbShows && 0 in r.tvdbShows[show]
    && var ranges := r.tvdbShows[show][0];
    && (|| |ranges| == 0
        || exists i :: 0 <= i < |ranges| && ranges[i].start <= v && (ranges[i].end == None || v <= ranges[i].end.value))
  }

  /** Another record filed under the show holds the number there. */
  predicate HeldByAnother(idx: Index, id: int, show: int, v: int) {
    && show in idx.tvdb
    && exists other :: other in idx.tvdb[show] && other != id && other in idx.records
         && SeasonZeroHas(idx.records[other], show, v)
  }

  lemma ClaimedIff(idx: Index, id: int, show: int, v: int)
    ensures ClaimedElsewhere(idx, id, show, v) <==> HeldByAnother(idx, id, show, v)
  {
    forall other
      ensures HoldsSpecial(idx, other, show, v) <==>
        other in idx.records && SeasonZeroHas(idx.records[other], show, v)
    {
      if other in idx.records && SeasonZeroHas(idx.records[other], show, v) {
        var ranges := idx.records[other].tvdbShows[show][0];
        if ranges != [] {
          var i :| 0 <= i < |ranges| && ranges[i].start <= v && (ranges[i].end == None || v <= ranges[i].end.value);
          assert ranges[i] in ranges && ranges[i].Has(v);
        }
      }
    }
  }

  /** What the filter leaves: exactly the aliases whose TVDB number no other record of the show holds in season 0, under
    * their TMDB show, and no show without any.
    */
  lemma SurvivingAliasIff(idx: Index, id: int, show: int, n: int)
    requires id in idx.records
    ensures
      var before, after := idx.records[id].aliasing, Filtered(idx).records[id].aliasing;
      && (show in after && n in after[show].aliases <==>
            show in before && n in before[show].aliases && !HeldByAnother(idx, id, show, before[show].aliases[n]))
      && (show in after ==>
            && after[show].tmdbId == before[show].tmdbId && after[show].aliases != map[]
            && (n in after[show].aliases ==> after[show].aliases[n] == before[show].aliases[n]))
  {
    var before, after := idx.records[id].aliasing, Filtered(idx).records[id].aliasing;
    if show in before && n in before[show].aliases {
      ClaimedIff(idx, id, show, before[show].aliases[n]);
      var kept := KeptAliases(idx, id, show, before[show].aliases);
      assert kept != map[] || n !in kept;
    }
  }
}
