/** A monitor's run as a value: cycle by cycle, each followed by the refreshes of its wait. It is conserved throughout,
  * and on timely polls its rows stay watched.
  */
module MonitorRuns {
  import opened WaitRows
  import opened WaitMeasure
  import opened PassSpec
  import opened MonitorBound

  /** A pass after the first `s` refreshes of a wait. */
  function Waited(ps: Pass, bars: seq<seq<ProgressInput>>, s: nat): (after: Pass)
    requires s <= |bars| && forall j :: 0 <= j < |bars| ==> |bars[j]| >= |ps.entries|
    ensures |after.entries| == |ps.entries|
  {
    if s == 0 then ps else RefreshAll(Waited(ps, bars, s - 1), bars[s - 1], |ps.entries|)
  }

  /** A pass after `c` cycles and their waits. */
  ghost function MonitorRun(cfg: Config, ps: Pass, polls: nat -> seq<PollInput>,
                            slices: nat -> seq<seq<ProgressInput>>, c: nat): (after: Pass)
    requires Sized(|ps.entries|, polls, slices)
    ensures |after.entries| == |ps.entries|
  {
    if c == 0 then ps
    else
      var before := MonitorRun(cfg, ps, polls, slices, c - 1);
      Round(cfg, before, polls(c - 1), slices(c - 1))
  }

  /** A row was active before each of the first `s` refreshes. */
  ghost predicate BusyUntil(ps: Pass, bars: seq<seq<ProgressInput>>, s: nat)
    requires s <= |bars| && forall j :: 0 <= j < |bars| ==> |bars[j]| >= |ps.entries|
  {
    s == 0 || (BusyUntil(ps, bars, s - 1) && SomeActive(Waited(ps, bars, s - 1)))
  }

  lemma WaitGoesOn(ps: Pass, bars: seq<seq<ProgressInput>>, s: nat, before: Pass, after: Pass)
    requires s < |bars| && forall j :: 0 <= j < |bars| ==> |bars[j]| >= |ps.entries|
    requires before == Waited(ps, bars, s) && after == RefreshAll(before, bars[s], |ps.entries|)
    requires BusyUntil(ps, bars, s) && SomeActive(before)
    ensures after == Waited(ps, bars, s + 1) && BusyUntil(ps, bars, s + 1)
  {
  }

  /** One round: a cycle, then the whole wait. */
  function Round(cfg: Config, ps: Pass, polls: seq<PollInput>, bars: seq<seq<ProgressInput>>): (after: Pass)
    requires |ps.entries| <= |polls| && forall j :: 0 <= j < |bars| ==> |bars[j]| >= |ps.entries|
    ensures |after.entries| == |ps.entries|
  {
    Waited(Cycle(cfg, ps, polls, |ps.entries|), bars, |bars|)
  }

  lemma RunGoesOn(cfg: Config, ps: Pass, polls: nat -> seq<PollInput>, slices: nat -> seq<seq<ProgressInput>>, c: nat,
                  before: Pass, after: Pass)
    requires Sized(|ps.entries|, polls, slices) && before == MonitorRun(cfg, ps, polls, slices, c)
    requires after == Round(cfg, before, polls(c), slices(c))
    ensures after == MonitorRun(cfg, ps, polls, slices, c + 1)
  {
  }

  lemma {:induction false} IdleRefreshes(ps: Pass, inputs: seq<ProgressInput>, n: nat)
    requires n <= |ps.entries| <= |inputs| && !SomeActive(ps)
    ensures RefreshAll(ps, inputs, n) == ps
  {
    if n > 0 {
      IdleRefreshes(ps, inputs, n - 1);
    }
  }

  /** Refreshing a pass without an active row changes nothing, so a wait may be given up there. */
  lemma {:induction false} IdleWaits(ps: Pass, bars: seq<seq<ProgressInput>>, s: nat, t: nat)
    requires s <= t <= |bars| && forall j :: 0 <= j < |bars| ==> |bars[j]| >= |ps.entries|
    requires !SomeActive(Waited(ps, bars, s))
    ensures Waited(ps, bars, t) == Waited(ps, bars, s)
  {
    if s < t {
      IdleWaits(ps, bars, s, t - 1);
      IdleRefreshes(Waited(ps, bars, s), bars[t - 1], |ps.entries|);
    }
  }

  /** What holds at first, and of each next where it held, holds throughout. */
  lemma {:induction false} StepByStep(holds: nat -> bool, n: nat)
    requires holds(0) && forall k: nat | k < n && holds(k) :: holds(k + 1)
    ensures holds(n)
  {
    if n > 0 {
      StepByStep(holds, n - 1);
    }
  }

  lemma {:induction false} WaitConserves(start: Pass, ps: Pass, bars: seq<seq<ProgressInput>>, s: nat)
    requires Conserved(ps) && Continues(start, ps)
    requires s <= |bars| && forall j :: 0 <= j < |bars| ==> |bars[j]| >= |ps.entries|
    ensures Conserved(Waited(ps, bars, s)) && Continues(start, Waited(ps, bars, s))
  {
    if s > 0 {
      WaitConserves(start, ps, bars, s - 1);
      RefreshCarriesOn(start, Waited(ps, bars, s - 1), bars[s - 1], Waited(ps, bars, s));
    }
  }

  /** Every run is conserved, whatever its instants. */
  lemma {:induction false} RunConserves(cfg: Config, ps: Pass, polls: nat -> seq<PollInput>,
                                        slices: nat -> seq<seq<ProgressInput>>, c: nat)
    requires Conserved(ps) && Sized(|ps.entries|, polls, slices)
    ensures Conserved(MonitorRun(cfg, ps, polls, slices, c)) && Continues(ps, MonitorRun(cfg, ps, polls, slices, c))
  {
    if c > 0 {
      RunConserves(cfg, ps, polls, slices, c - 1);
      RoundConserves(cfg, ps, MonitorRun(cfg, ps, polls, slices, c - 1), polls(c - 1), slices(c - 1),
                     MonitorRun(cfg, ps, polls, slices, c));
    }
  }

  lemma RoundConserves(cfg: Config, start: Pass, ps: Pass, polls: seq<PollInput>, bars: seq<seq<ProgressInput>>,
                       after: Pass)
    requires Conserved(ps) && Continues(start, ps)
    requires |ps.entries| <= |polls| && forall j :: 0 <= j < |bars| ==> |bars[j]| >= |ps.entries|
    requires after == Round(cfg, ps, polls, bars)
    ensures Conserved(after) && Continues(start, after)
  {
    var cycled := Cycle(cfg, ps, polls, |ps.entries|);
    CycleConserves(cfg, ps, polls, |ps.entries|);
    ContinuesChains(start, ps, cycled);
    WaitConserves(start, cycled, bars, |bars|);
  }

  lemma RefreshCarriesOn(start: Pass, ps: Pass, inputs: seq<ProgressInput>, after: Pass)
    requires Conserved(ps) && Continues(start, ps) && |ps.entries| <= |inputs|
    requires after == RefreshAll(ps, inputs, |ps.entries|)
    ensures Conserved(after) && Continues(start, after)
  {
    RefreshConserves(ps, inputs, |ps.entries|);
    ContinuesChains(start, ps, after);
  }

  lemma {:induction false} WaitWatches(cfg: Config, pace: Pace, gap: real, ps: Pass, rows: nat,
                                       polls: nat -> seq<PollInput>, slices: nat -> seq<seq<ProgressInput>>, c: nat,
                                       s: nat)
    returns (after: Pass)
    requires Configured(cfg) && rows == |ps.entries| && gap >= 0.0
    requires WellPaced(pace, rows, polls, slices) && s <= |slices(c)|
    requires AllWatched(cfg, pace, gap, ps.entries, LastPolls(pace, rows, polls, c + 1),
                        SliceInstants(rows, polls, slices, c, 0))
    ensures after == Waited(ps, slices(c), s)
    ensures AllWatched(cfg, pace, gap, after.entries, LastPolls(pace, rows, polls, c + 1),
                       SliceInstants(rows, polls, slices, c, s))
  {
    after := ps;
    if s > 0 {
      var before := WaitWatches(cfg, pace, gap, ps, rows, polls, slices, c, s - 1);
      after := RefreshAll(before, slices(c)[s - 1], rows);
      RefreshKeepsWatch(cfg, pace, gap, before, rows, polls, slices, c, s - 1, after);
    }
  }

  lemma WaitIsWatched(cfg: Config, pace: Pace, gap: real, start: Pass, ps: Pass, polls: nat -> seq<PollInput>,
                      slices: nat -> seq<seq<ProgressInput>>, c: nat)
    requires Configured(cfg) && AtSlice(cfg, pace, gap, start, ps, polls, slices, c, 0)
    ensures AtSlice(cfg, pace, gap, start, Waited(ps, slices(c), |slices(c)|), polls, slices, c, |slices(c)|)
  {
    WaitConserves(start, ps, slices(c), |slices(c)|);
    var after := WaitWatches(cfg, pace, gap, ps, |ps.entries|, polls, slices, c, |slices(c)|);
  }

  lemma RoundMovesOn(cfg: Config, pace: Pace, gap: real, start: Pass, ps: Pass, polls: nat -> seq<PollInput>,
                     slices: nat -> seq<seq<ProgressInput>>, c: nat, after: Pass)
    requires Configured(cfg) && AtCycle(cfg, pace, gap, start, ps, polls, slices, c)
    requires after == Round(cfg, ps, polls(c), slices(c))
    ensures AtCycle(cfg, pace, gap, start, after, polls, slices, c + 1)
  {
    var cycled := Cycle(cfg, ps, polls(c), |ps.entries|);
    CycleMovesOn(cfg, pace, gap, start, ps, polls, slices, c, cycled);
    WaitIsWatched(cfg, pace, gap, start, cycled, polls, slices, c);
    WaitMovesOn(cfg, pace, gap, start, after, polls, slices, c, |slices(c)|);
  }

  /** Every run is conserved, its rows watched. */
  lemma RunIsWatched(cfg: Config, pace: Pace, gap: real, ps: Pass, polls: nat -> seq<PollInput>,
                     slices: nat -> seq<seq<ProgressInput>>, c: nat)
    requires Starting(cfg, pace, ps, polls, slices) && Timely(pace, gap, |ps.entries|, polls)
    ensures AtCycle(cfg, pace, gap, ps, MonitorRun(cfg, ps, polls, slices, c), polls, slices, c)
  {
    ghost var watched :=
      (k: nat) => AtCycle(cfg, pace, gap, ps, MonitorRun(cfg, ps, polls, slices, k), polls, slices, k);
    StartsWatched(cfg, pace, gap, ps, polls, slices);
    forall k: nat | watched(k) ensures watched(k + 1) {
      RoundMovesOn(cfg, pace, gap, ps, MonitorRun(cfg, ps, polls, slices, k), polls, slices, k,
                   MonitorRun(cfg, ps, polls, slices, k + 1));
    }
    StepByStep(watched, c);
  }
}
