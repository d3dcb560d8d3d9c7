/** How long the blocking monitor watches a row: where no two polls of a row are further apart than `gap`, every row
  * leaves the watch within a fixed time of the pass's start.
  */
module MonitorBound {
  import opened WaitRows
  import opened BoundedWait
  import opened WaitMeasure
  import opened PassSpec

  /** COMPLETE polls of a watched row can straddle the whole download wait. */
  function CompleteGap(cfg: Config, gap: real): real {
    cfg.waitTimeout + gap
  }

  /** An active row of a monitor pass, last polled at `last`, as it stands at `now`. */
  predicate Watched(cfg: Config, pace: Pace, gap: real, r: Row, last: real, now: real) {
    r.Active() ==>
      && r.dlStart == pace.start <= last <= now
      && RowHeld(cfg, r, CompleteGap(cfg, gap), now)
      && (r.clock.None? ==> last - r.dlStart < cfg.waitTimeout)
      && (r.clock.Some? ==>
            var c := r.clock.value;
            && r.dlStart <= c.started <= c.pollAt.value
            && c.started - r.dlStart < cfg.waitTimeout + gap
            && 0 <= SeenCount(c) <= pace.n
            && (last == c.pollAt.value || last - r.dlStart < cfg.waitTimeout))
  }

  lemma WatchedAfterPoll(cfg: Config, pace: Pace, gap: real, r: Row, p: Poll, last: real, now: real)
    requires cfg.monitor && cfg.readyTimeout > 0.0 && cfg.waitTimeout > 0.0 && gap >= 0.0
    requires r.Active() && Watched(cfg, pace, gap, r, last, now)
    requires now <= p.now <= last + gap && 0 <= p.probe.imported <= pace.n
    ensures Watched(cfg, pace, gap, Advance(cfg, r, p), p.now, p.now)
  {
    var next := Advance(cfg, r, p);
    if next.Active() {
      var e := Polled(p);
      if e.IsComplete() && r.clock.Some? {
        assert p.now - r.clock.value.pollAt.value <= CompleteGap(cfg, gap);
      }
      RowHeldAfter(cfg, r, e, CompleteGap(cfg, gap), now);
    }
  }

  lemma WatchedAfterRefresh(cfg: Config, pace: Pace, gap: real, r: Row, f: Progress, last: real, now: real)
    requires cfg.readyTimeout > 0.0 && cfg.waitTimeout > 0.0 && gap >= 0.0
    requires r.Active() && Watched(cfg, pace, gap, r, last, now)
    requires now <= f.now && 0 <= f.done <= pace.n
    ensures Watched(cfg, pace, gap, Refresh(r, f), last, f.now)
  {
    if Refresh(r, f).Active() {
      RowHeldAfter(cfg, r, Refreshed(f), CompleteGap(cfg, gap), now);
    }
  }

  /** No row is still active this long after the pass began. */
  function RowBound(cfg: Config, pace: Pace, gap: real): real {
    cfg.waitTimeout + gap + WaitBound(cfg.readyTimeout, CompleteGap(cfg, gap), pace.n)
  }

  lemma WatchedRowIsYoung(cfg: Config, pace: Pace, gap: real, r: Row, last: real, now: real)
    requires cfg.readyTimeout > 0.0 && cfg.waitTimeout > 0.0 && gap >= 0.0
    requires r.Active() && Watched(cfg, pace, gap, r, last, now)
    requires r.clock.Some? && last == r.clock.value.pollAt.value ==> now <= last + gap
    ensures last - pace.start < RowBound(cfg, pace, gap)
  {
    var whole := CompleteGap(cfg, gap);
    BoundExpands(cfg.readyTimeout, whole, pace.n);
    ScaledBySteps(0, pace.n, cfg.readyTimeout + whole);
    if r.clock.Some? && last == r.clock.value.pollAt.value {
      var c := r.clock.value;
      ScaledBySteps(SeenCount(c), pace.n, c.timeout + whole);
      assert c.Cap() == 6.0 * c.timeout;
    }
  }

  /** Every cycle's readings and refreshes cover all `rows` rows. */
  ghost predicate Sized(rows: nat, polls: nat -> seq<PollInput>, slices: nat -> seq<seq<ProgressInput>>) {
    && (forall k: nat :: |polls(k)| >= rows)
    && (forall k: nat, j | 0 <= j < |slices(k)| :: |slices(k)[j]| >= rows)
  }

  /** When each row was last polled before cycle `c`. */
  ghost function LastPolls(pace: Pace, rows: nat, polls: nat -> seq<PollInput>, c: nat): seq<real>
    requires forall k: nat :: |polls(k)| >= rows
  {
    if c == 0 then seq(rows, _ => pace.start)
    else seq(rows, i requires 0 <= i < rows => polls(c - 1)[i].poll.now)
  }

  /** Each row's newest instant after `s` slices of cycle `c`. */
  ghost function SliceInstants(rows: nat, polls: nat -> seq<PollInput>, slices: nat -> seq<seq<ProgressInput>>,
                               c: nat, s: nat): seq<real>
    requires Sized(rows, polls, slices) && s <= |slices(c)|
  {
    if s == 0 then seq(rows, i requires 0 <= i < rows => polls(c)[i].poll.now)
    else seq(rows, i requires 0 <= i < rows => slices(c)[s - 1][i].progress.now)
  }

  /** Each row's newest instant before cycle `c`. */
  ghost function LastInstants(pace: Pace, rows: nat, polls: nat -> seq<PollInput>,
                              slices: nat -> seq<seq<ProgressInput>>, c: nat): seq<real>
    requires Sized(rows, polls, slices)
  {
    if c == 0 then seq(rows, _ => pace.start) else SliceInstants(rows, polls, slices, c - 1, |slices(c - 1)|)
  }

  ghost predicate PollPaced(pace: Pace, rows: nat, polls: nat -> seq<PollInput>,
                            slices: nat -> seq<seq<ProgressInput>>, c: nat, i: nat)
    requires Sized(rows, polls, slices) && i < rows
  {
    var last, poll := LastPolls(pace, rows, polls, c)[i], polls(c)[i].poll;
    && last + (if c == 0 then 0.0 else pace.step) <= poll.now
    && LastInstants(pace, rows, polls, slices, c)[i] <= poll.now
    && 0 <= poll.probe.imported <= pace.n
  }

  ghost predicate SlicePaced(pace: Pace, rows: nat, polls: nat -> seq<PollInput>,
                             slices: nat -> seq<seq<ProgressInput>>, c: nat, s: nat, i: nat)
    requires Sized(rows, polls, slices) && i < rows && s < |slices(c)|
  {
    var progress := slices(c)[s][i].progress;
    && SliceInstants(rows, polls, slices, c, s)[i] <= progress.now
    && 0 <= progress.done <= pace.n
  }

  /** What the clock and the counts owe a pass of `rows` rows, whatever qBittorrent and Sonarr answer. */
  ghost predicate WellPaced(pace: Pace, rows: nat, polls: nat -> seq<PollInput>,
                            slices: nat -> seq<seq<ProgressInput>>)
  {
    && pace.step > 0.0
    && Sized(rows, polls, slices)
    && (forall c: nat, i: nat | i < rows :: PollPaced(pace, rows, polls, slices, c, i))
    && (forall c: nat, s: nat, i: nat | s < |slices(c)| && i < rows ::
          SlicePaced(pace, rows, polls, slices, c, s, i))
  }

  ghost predicate PollTimely(pace: Pace, gap: real, rows: nat, polls: nat -> seq<PollInput>, c: nat, i: nat)
    requires (forall k: nat :: |polls(k)| >= rows) && i < rows
  {
    polls(c)[i].poll.now <= LastPolls(pace, rows, polls, c)[i] + gap
  }

  /** No poll of a row comes more than `gap` after the one before, or after the pass's start. */
  ghost predicate Timely(pace: Pace, gap: real, rows: nat, polls: nat -> seq<PollInput>)
    requires forall k: nat :: |polls(k)| >= rows
  {
    && gap >= 0.0
    && forall c: nat, i: nat | i < rows :: PollTimely(pace, gap, rows, polls, c, i)
  }

  predicate AllWatched(cfg: Config, pace: Pace, gap: real, entries: seq<Entry>, lasts: seq<real>, nows: seq<real>) {
    && |entries| == |lasts| == |nows|
    && forall i :: 0 <= i < |entries| ==> Watched(cfg, pace, gap, entries[i].row, lasts[i], nows[i])
  }

  /** A cycle advances each of its first `n` rows on its own. */
  lemma {:induction false} CycleRows(cfg: Config, ps: Pass, inputs: seq<PollInput>, n: nat)
    requires n <= |ps.entries| <= |inputs|
    ensures forall i :: 0 <= i < |ps.entries| ==>
      Cycle(cfg, ps, inputs, n).entries[i].row ==
        if i < n && ps.entries[i].row.Active() then Advance(cfg, ps.entries[i].row, inputs[i].poll)
        else ps.entries[i].row
  {
    if n > 0 {
      CycleRows(cfg, ps, inputs, n - 1);
    }
  }

  lemma {:induction false} RefreshRows(ps: Pass, inputs: seq<ProgressInput>, n: nat)
    requires n <= |ps.entries| <= |inputs|
    ensures forall i :: 0 <= i < |ps.entries| ==>
      RefreshAll(ps, inputs, n).entries[i].row ==
        if i < n && ps.entries[i].row.Active() then Refresh(ps.entries[i].row, inputs[i].progress)
        else ps.entries[i].row
  {
    if n > 0 {
      RefreshRows(ps, inputs, n - 1);
    }
  }

  lemma CycleKeepsWatch(cfg: Config, pace: Pace, gap: real, ps: Pass, polls: nat -> seq<PollInput>,
                        slices: nat -> seq<seq<ProgressInput>>, c: nat)
    requires Configured(cfg)
    requires WellPaced(pace, |ps.entries|, polls, slices) && Timely(pace, gap, |ps.entries|, polls)
    requires AllWatched(cfg, pace, gap, ps.entries, LastPolls(pace, |ps.entries|, polls, c),
                        LastInstants(pace, |ps.entries|, polls, slices, c))
    ensures AllWatched(cfg, pace, gap, Cycle(cfg, ps, polls(c), |ps.entries|).entries,
                       LastPolls(pace, |ps.entries|, polls, c + 1),
                       SliceInstants(|ps.entries|, polls, slices, c, 0))
  {
    var n := |ps.entries|;
    CycleRows(cfg, ps, polls(c), n);
    var lasts, nows := LastPolls(pace, n, polls, c), LastInstants(pace, n, polls, slices, c);
    var after := Cycle(cfg, ps, polls(c), n);
    forall i | 0 <= i < n
      ensures Watched(cfg, pace, gap, after.entries[i].row, polls(c)[i].poll.now, polls(c)[i].poll.now)
    {
      if ps.entries[i].row.Active() {
        assert PollPaced(pace, n, polls, slices, c, i) && PollTimely(pace, gap, n, polls, c, i);
        WatchedAfterPoll(cfg, pace, gap, ps.entries[i].row, polls(c)[i].poll, lasts[i], nows[i]);
      }
    }
  }

  lemma RefreshKeepsWatch(cfg: Config, pace: Pace, gap: real, ps: Pass, rows: nat, polls: nat -> seq<PollInput>,
                          slices: nat -> seq<seq<ProgressInput>>, c: nat, s: nat, after: Pass)
    requires Configured(cfg) && rows == |ps.entries| && gap >= 0.0
    requires WellPaced(pace, rows, polls, slices) && s < |slices(c)|
    requires AllWatched(cfg, pace, gap, ps.entries, LastPolls(pace, rows, polls, c + 1),
                        SliceInstants(rows, polls, slices, c, s))
    requires after == RefreshAll(ps, slices(c)[s], rows)
    ensures AllWatched(cfg, pace, gap, after.entries, LastPolls(pace, rows, polls, c + 1),
                       SliceInstants(rows, polls, slices, c, s + 1))
  {
    RefreshRows(ps, slices(c)[s], rows);
    var lasts, nows := LastPolls(pace, rows, polls, c + 1), SliceInstants(rows, polls, slices, c, s);
    forall i | 0 <= i < rows
      ensures Watched(cfg, pace, gap, after.entries[i].row, lasts[i], slices(c)[s][i].progress.now)
    {
      if ps.entries[i].row.Active() {
        assert SlicePaced(pace, rows, polls, slices, c, s, i);
        WatchedAfterRefresh(cfg, pace, gap, ps.entries[i].row, slices(c)[s][i].progress, lasts[i], nows[i]);
      }
    }
  }

  // The monitor's loop, pass by pass.

  predicate SomeActive(ps: Pass) {
    exists i :: 0 <= i < |ps.entries| && ps.entries[i].row.Active()
  }

  /** A pass `start` became, `s` refreshes into the wait of cycle `c`. */
  ghost predicate AtSlice(cfg: Config, pace: Pace, gap: real, start: Pass, ps: Pass, polls: nat -> seq<PollInput>,
                          slices: nat -> seq<seq<ProgressInput>>, c: nat, s: nat)
  {
    var n := |ps.entries|;
    && WellPaced(pace, n, polls, slices) && Timely(pace, gap, n, polls) && s <= |slices(c)|
    && Conserved(ps) && Continues(start, ps)
    && AllWatched(cfg, pace, gap, ps.entries, LastPolls(pace, n, polls, c + 1), SliceInstants(n, polls, slices, c, s))
  }

  /** A pass `start` became, before cycle `c`. */
  ghost predicate AtCycle(cfg: Config, pace: Pace, gap: real, start: Pass, ps: Pass, polls: nat -> seq<PollInput>,
                          slices: nat -> seq<seq<ProgressInput>>, c: nat)
  {
    var n := |ps.entries|;
    && WellPaced(pace, n, polls, slices) && Timely(pace, gap, n, polls)
    && Conserved(ps) && Continues(start, ps)
    && AllWatched(cfg, pace, gap, ps.entries, LastPolls(pace, n, polls, c), LastInstants(pace, n, polls, slices, c))
  }

  /** A monitor's beginning: fresh rows, conserved, and answers paced from here on. */
  ghost predicate Starting(cfg: Config, pace: Pace, ps: Pass, polls: nat -> seq<PollInput>,
                           slices: nat -> seq<seq<ProgressInput>>)
  {
    && Configured(cfg) && WellPaced(pace, |ps.entries|, polls, slices) && Conserved(ps)
    && forall i :: 0 <= i < |ps.entries| ==> ps.entries[i].row == FreshRow(pace.start)
  }

  lemma StartsWatched(cfg: Config, pace: Pace, gap: real, ps: Pass, polls: nat -> seq<PollInput>,
                      slices: nat -> seq<seq<ProgressInput>>)
    requires Starting(cfg, pace, ps, polls, slices) && Timely(pace, gap, |ps.entries|, polls)
    ensures AtCycle(cfg, pace, gap, ps, ps, polls, slices, 0)
  {
  }

  lemma CycleMovesOn(cfg: Config, pace: Pace, gap: real, start: Pass, ps: Pass, polls: nat -> seq<PollInput>,
                     slices: nat -> seq<seq<ProgressInput>>, c: nat, after: Pass)
    requires Configured(cfg) && AtCycle(cfg, pace, gap, start, ps, polls, slices, c)
    requires after == Cycle(cfg, ps, polls(c), |ps.entries|)
    ensures AtSlice(cfg, pace, gap, start, after, polls, slices, c, 0)
  {
    CycleConserves(cfg, ps, polls(c), |ps.entries|);
    ContinuesChains(start, ps, after);
    CycleKeepsWatch(cfg, pace, gap, ps, polls, slices, c);
  }

  /** The wait is over when its slices are, or when no row is active. */
  lemma WaitMovesOn(cfg: Config, pace: Pace, gap: real, start: Pass, ps: Pass, polls: nat -> seq<PollInput>,
                    slices: nat -> seq<seq<ProgressInput>>, c: nat, s: nat)
    requires AtSlice(cfg, pace, gap, start, ps, polls, slices, c, s) && (s == |slices(c)| || !SomeActive(ps))
    ensures AtCycle(cfg, pace, gap, start, ps, polls, slices, c + 1)
  {
  }
}
