/** The row lists one graph-backed view flattens to (`to_rows`), table by table. Dicts and sets are gone over in any
  * order; only a season's own range list has one.
  */
module RowFlattening {
  import opened Wrappers
  import opened AniBridgeSpec
  import opened MappingStore

  /** Cells written under one record and show. */
  function Tagged<T>(id: int, show: int, cells: seq<T>): seq<ShowRow<T>> {
    seq(|cells|, i requires 0 <= i < |cells| => ShowRow(id, show, cells[i]))
  }

  lemma {:induction false} TaggedLand<T>(rows: seq<ShowRow<T>>, id: int, show: int, cells: seq<T>, i: int, s: int)
    ensures RowsAt(rows + Tagged(id, show, cells), i, s) ==
            RowsAt(rows, i, s) + (if i == id && s == show then cells else [])
  {
    var n := |cells| - 1;
    if n < 0 {
      assert rows + Tagged(id, show, cells) == rows;
    } else {
      var all := rows + Tagged(id, show, cells);
      assert all[..|all| - 1] == rows + Tagged(id, show, cells[..n]);
      TaggedLand(rows, id, show, cells[..n], i, s);
      assert cells[..n] + [cells[n]] == cells;
      assert RowsAt(rows, i, s) + [] + [] == RowsAt(rows, i, s) + [];
    }
  }

  /** The rows a record gained, by show; every other row is as before. */
  ghost predicate Gained<T>(before: seq<ShowRow<T>>, after: seq<ShowRow<T>>, id: int, gained: map<int, seq<T>>) {
    forall i, s :: RowsAt(after, i, s) == if i == id && s in gained then gained[s] else RowsAt(before, i, s)
  }

  lemma GainAt<T>(rows: seq<ShowRow<T>>, id: int, show: int, cells: seq<T>, i: int, s: int)
    requires i == id && s == show ==> RowsAt(rows, i, s) == []
    ensures RowsAt(rows + Tagged(id, show, cells), i, s) == if i == id && s == show then cells else RowsAt(rows, i, s)
  {
    TaggedLand(rows, id, show, cells, i, s);
    assert RowsAt(rows, i, s) + [] == RowsAt(rows, i, s);
  }

  lemma GainShow<T>(before: seq<ShowRow<T>>, after: seq<ShowRow<T>>, id: int, gained: map<int, seq<T>>, show: int,
                    cells: seq<T>)
    requires Gained(before, after, id, gained) && show !in gained && RowsAt(before, id, show) == []
    ensures Gained(before, after + Tagged(id, show, cells), id, gained[show := cells])
  {
    forall i, s
      ensures RowsAt(after + Tagged(id, show, cells), i, s) ==
              if i == id && s == show then cells else RowsAt(after, i, s)
    {
      GainAt(after, id, show, cells, i, s);
    }
  }

  function RangeCells(season: int, ranges: seq<Range>): seq<RangeCell> {
    seq(|ranges|, i requires 0 <= i < |ranges| => RangeCell(season, Some(ranges[i].start), ranges[i].end))
  }

  /** One season's cells: its ranges in order, or the NULL marker. */
  function SeasonCells(season: int, ranges: seq<Range>): seq<RangeCell> {
    if ranges == [] then [RangeCell(season, None, None)] else RangeCells(season, ranges)
  }

  lemma OneMoreCell(cells: seq<RangeCell>, cell: RangeCell)
    ensures
      var before := Mappings(cells);
      var bucket := if cell.season in before then before[cell.season] else [];
      Mappings(cells + [cell]) ==
        before[cell.season := if cell.start.Some? then bucket + [Range(cell.start.value, cell.end)] else bucket]
  {
    assert (cells + [cell])[..|cells|] == cells;
  }

  lemma {:induction false} RangesRegroup(cells: seq<RangeCell>, season: int, ranges: seq<Range>)
    requires season !in Mappings(cells) && ranges != []
    ensures Mappings(cells + RangeCells(season, ranges)) == Mappings(cells)[season := ranges]
  {
    var n := |ranges| - 1;
    var before, last := cells + RangeCells(season, ranges[..n]), RangeCells(season, ranges)[n];
    assert cells + RangeCells(season, ranges) == before + [last];
    OneMoreCell(before, last);
    assert ranges == ranges[..n] + [ranges[n]];
    if n == 0 {
      assert before == cells;
    } else {
      RangesRegroup(cells, season, ranges[..n]);
    }
  }

  lemma SeasonRegroups(cells: seq<RangeCell>, season: int, ranges: seq<Range>)
    requires season !in Mappings(cells)
    ensures Mappings(cells + SeasonCells(season, ranges)) == Mappings(cells)[season := ranges]
  {
    if ranges == [] {
      OneMoreCell(cells, RangeCell(season, None, None));
    } else {
      RangesRegroup(cells, season, ranges);
    }
  }

  /** The range rows of one show of a record. */
  method ShowRanges(seasons: Seasons) returns (cells: seq<RangeCell>)
    ensures Mappings(cells) == seasons
  {
    cells := [];
    var todo := seasons.Keys;
    while todo != {}
      invariant todo <= seasons.Keys
      invariant Mappings(cells) == map season | season in seasons && season !in todo :: seasons[season]
    {
      var season := AnyOf(todo);
      SeasonRegroups(cells, season, seasons[season]);
      todo := todo - {season};
      cells := cells + SeasonCells(season, seasons[season]);
    }
    assert (map season | season in seasons && season !in todo :: seasons[season]) == seasons;
  }

  /** The alias rows of one show of a record. */
  method ShowAliases(aliasing: Aliasing) returns (cells: seq<AliasCell>)
    requires aliasing.aliases != map[]
    ensures AliasingOf(cells) == Some(aliasing)
  {
    cells := [];
    var todo := aliasing.aliases.Keys;
    while todo != {}
      invariant todo <= aliasing.aliases.Keys
      invariant AliasingOf(cells) ==
        if todo == aliasing.aliases.Keys then None
        else Some(Aliasing(aliasing.tmdbId, map n | n in aliasing.aliases && n !in todo :: aliasing.aliases[n]))
    {
      var n := AnyOf(todo);
      var more := cells + [AliasCell(aliasing.tmdbId, n, aliasing.aliases[n])];
      assert more[..|cells|] == cells;
      todo := todo - {n};
      cells := more;
      assert AliasingOf(cells).value.aliases == map n | n in aliasing.aliases && n !in todo :: aliasing.aliases[n];
    }
    assert (map n | n in aliasing.aliases && n !in todo :: aliasing.aliases[n]) == aliasing.aliases;
  }

  /** The rows so far plus those of one record's shows. */
  method RecordRanges(rows: seq<ShowRow<RangeCell>>, id: int, shows: map<int, Seasons>)
    returns (more: seq<ShowRow<RangeCell>>, ghost gained: map<int, seq<RangeCell>>)
    requires forall show :: RowsAt(rows, id, show) == []
    ensures Gained(rows, more, id, gained) && gained.Keys == shows.Keys
    ensures forall show :: show in shows ==> Mappings(gained[show]) == shows[show]
  {
    more, gained := rows, map[];
    var todo := shows.Keys;
    while todo != {}
      invariant todo <= shows.Keys && gained.Keys == shows.Keys - todo
      invariant Gained(rows, more, id, gained)
      invariant forall show :: show in gained ==> Mappings(gained[show]) == shows[show]
    {
      var show := AnyOf(todo);
      var cells := ShowRanges(shows[show]);
      GainShow(rows, more, id, gained, show, cells);
      todo := todo - {show};
      more, gained := more + Tagged(id, show, cells), gained[show := cells];
    }
  }

  method RecordAliases(rows: seq<ShowRow<AliasCell>>, id: int, aliasing: map<int, Aliasing>)
    returns (more: seq<ShowRow<AliasCell>>, ghost gained: map<int, seq<AliasCell>>)
    requires forall show :: RowsAt(rows, id, show) == []
    requires forall show :: show in aliasing ==> aliasing[show].aliases != map[]
    ensures Gained(rows, more, id, gained) && gained.Keys == aliasing.Keys
    ensures forall show :: show in aliasing ==> AliasingOf(gained[show]) == Some(aliasing[show])
  {
    more, gained := rows, map[];
    var todo := aliasing.Keys;
    while todo != {}
      invariant todo <= aliasing.Keys && gained.Keys == aliasing.Keys - todo
      invariant Gained(rows, more, id, gained)
      invariant forall show :: show in gained ==> AliasingOf(gained[show]) == Some(aliasing[show])
    {
      var show := AnyOf(todo);
      var cells := ShowAliases(aliasing[show]);
      GainShow(rows, more, id, gained, show, cells);
      todo := todo - {show};
      more, gained := more + Tagged(id, show, cells), gained[show := cells];
    }
  }

  /** The xref rows of one reverse index, behind those of the other axes. */
  method AxisXrefs(rows: seq<XrefRow>, axis: Axis, index: map<ExtId, set<int>>) returns (more: seq<XrefRow>)
    requires forall ext, id :: XrefCount(rows, axis, ext, id) == 0
    ensures forall a, ext, id ::
      XrefCount(more, a, ext, id) ==
        if a != axis then XrefCount(rows, a, ext, id) else if id in Ids(index, ext) then 1 else 0
  {
    more := rows;
    var todo := index.Keys;
    while todo != {}
      invariant todo <= index.Keys
      invariant forall a, ext, id ::
        XrefCount(more, a, ext, id) ==
          if a != axis then XrefCount(rows, a, ext, id) else if ext !in todo && id in Ids(index, ext) then 1 else 0
    {
      var ext := AnyOf(todo);
      todo := todo - {ext};
      ghost var before := more;
      var ids := index[ext];
      while ids != {}
        invariant ids <= index[ext]
        invariant forall a, e, id ::
          XrefCount(more, a, e, id) ==
            if a == axis && e == ext then (if id in index[ext] - ids then 1 else 0) else XrefCount(before, a, e, id)
      {
        var id := AnyOf(ids);
        ids := ids - {id};
        var next := more + [XrefRow(axis, ext, id)];
        assert next[..|more|] == more;
        more := next;
      }
    }
  }
}
