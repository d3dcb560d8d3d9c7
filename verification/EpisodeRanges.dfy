/** The runs the episode printer condenses a season to (`format_episode_ranges`, coverage.py). */
module EpisodeRanges {
  import opened SortedIds

  datatype Run = Run(start: int, end: int)

  predicate Covers(runs: seq<Run>, n: int) {
    exists i :: 0 <= i < |runs| && runs[i].start <= n <= runs[i].end
  }

  /** Non-empty runs in order, with a gap between any two. */
  predicate Canonical(runs: seq<Run>) {
    && (forall i :: 0 <= i < |runs| ==> runs[i].start <= runs[i].end)
    && (forall i, j :: 0 <= i < j < |runs| ==> runs[i].end + 1 < runs[j].start)
  }

  /** The walk: the episodes of the season and no others, in as few runs as they make. */
  method Condense(numbers: seq<int>) returns (runs: seq<Run>)
    ensures Canonical(runs)
    ensures forall n :: Covers(runs, n) <==> n in numbers
  {
    var episodes := Sorted(numbers);
    SortedHolds(numbers);
    if episodes == [] {
      return [];
    }
    runs := [];
    var open := Run(episodes[0], episodes[0]);
    assert Covers([open], episodes[0]) by {
      assert [open][0].start <= episodes[0] <= [open][0].end;
    }
    assert runs + [open] == [open];
    for i := 1 to |episodes|
      invariant open.end == episodes[i - 1] && Canonical(runs + [open])
      invariant forall n :: Covers(runs + [open], n) <==> n in episodes[..i]
    {
      ghost var before, was := runs, open;
      if episodes[i] == open.end + 1 {
        open := Run(open.start, episodes[i]);
      } else {
        runs := runs + [open];
        open := Run(episodes[i], episodes[i]);
      }
      OneMoreEpisode(before, was, runs, open, episodes[i]);
      assert episodes[..i + 1] == episodes[..i] + [episodes[i]];
    }
    runs := runs + [open];
    assert episodes[..|episodes|] == episodes;
  }

  lemma OneMoreEpisode(before: seq<Run>, was: Run, runs: seq<Run>, open: Run, n: int)
    requires Canonical(before + [was]) && n > was.end
    requires if n == was.end + 1 then runs == before && open == Run(was.start, n)
             else runs == before + [was] && open == Run(n, n)
    ensures Canonical(runs + [open])
    ensures forall k :: Covers(runs + [open], k) <==> Covers(before + [was], k) || k == n
  {
    var a, b := before + [was], runs + [open];
    assert a[|a| - 1] == was && b[|b| - 1] == open;
    forall k ensures Covers(b, k) <==> Covers(a, k) || k == n {
      if i :| 0 <= i < |a| && a[i].start <= k <= a[i].end {
        assert b[i].start <= k <= b[i].end;
      }
      assert b[|b| - 1].start <= n <= b[|b| - 1].end;
      if i :| 0 <= i < |b| && b[i].start <= k <= b[i].end {
        assert k == n || (i < |a| && a[i].start <= k <= a[i].end);
      }
    }
    forall i | 0 <= i < |b| ensures b[i].start <= b[i].end {
      assert i < |a| ==> a[i].start <= a[i].end;
    }
    forall i, j | 0 <= i < j < |b| ensures b[i].end + 1 < b[j].start {
      assert a[i].end <= was.end;
      if j < |before| {
        assert b[i] == a[i] && b[j] == a[j];
      } else if i < |before| {
        assert b[i] == a[i] && a[i].end + 1 < was.start;
      }
    }
  }

  /** A set of episodes has one such reading, so the printed ranges tell which episodes they are. */
  lemma {:induction false} RunsAreUnique(a: seq<Run>, b: seq<Run>)
    requires Canonical(a) && Canonical(b)
    requires forall n :: Covers(a, n) <==> Covers(b, n)
    ensures a == b
  {
    if a != [] {
      FirstCovers(a, a[0].start);
    }
    if b != [] {
      FirstCovers(b, b[0].start);
    }
    if a != [] && b != [] {
      TailsCoverAlike(a, b);
      RunsAreUnique(a[1..], b[1..]);
      assert a == [a[0]] + a[1..] && b == [b[0]] + b[1..];
    }
  }

  lemma TailsCoverAlike(a: seq<Run>, b: seq<Run>)
    requires Canonical(a) && Canonical(b) && a != [] && b != []
    requires forall n :: Covers(a, n) <==> Covers(b, n)
    ensures a[0] == b[0] && forall n :: Covers(a[1..], n) <==> Covers(b[1..], n)
  {
    SameFirst(a, b);
    SameFirst(b, a);
    assert a[0] == b[0];
    forall n ensures Covers(a[1..], n) <==> Covers(b[1..], n) {
      TailCovers(a, n);
      TailCovers(b, n);
    }
  }

  lemma TailCovers(a: seq<Run>, n: int)
    requires Canonical(a) && a != []
    ensures Covers(a[1..], n) <==> Covers(a, n) && n > a[0].end
  {
    if i :| 0 <= i < |a[1..]| && a[1..][i].start <= n <= a[1..][i].end {
      assert a[i + 1].start <= n <= a[i + 1].end && a[0].end + 1 < a[i + 1].start;
    }
    if n > a[0].end {
      if i :| 0 <= i < |a| && a[i].start <= n <= a[i].end {
        assert a[1..][i - 1] == a[i];
      }
    }
  }

  lemma FirstCovers(a: seq<Run>, n: int)
    requires a != [] && a[0].start <= n <= a[0].end
    ensures Covers(a, n)
  {
  }

  lemma GapAfterFirst(a: seq<Run>)
    requires Canonical(a) && a != []
    ensures !Covers(a, a[0].end + 1)
  {
  }

  /** Neither first run can start before the other's or outlast it. */
  lemma SameFirst(a: seq<Run>, b: seq<Run>)
    requires Canonical(a) && Canonical(b) && a != [] && b != []
    requires forall n :: Covers(a, n) <==> Covers(b, n)
    ensures a[0].start >= b[0].start && (a[0].start == b[0].start ==> a[0].end <= b[0].end)
  {
    FirstCovers(a, a[0].start);
    var i :| 0 <= i < |b| && b[i].start <= a[0].start <= b[i].end;
    assert b[0].start <= b[i].start;
    if a[0].start <= b[0].end + 1 <= a[0].end {
      FirstCovers(a, b[0].end + 1);
    }
    GapAfterFirst(b);
  }
}
