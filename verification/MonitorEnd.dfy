/** Why the blocking monitor ends: however far apart the polls of a row come, every cycle after the first takes a step
  * from what the row's wait has left, and a run without an active row is whole.
  */
module MonitorEnd {
  import opened WaitRows
  import opened BoundedWait
  import opened WaitMeasure
  import opened PassSpec
  import opened MonitorBound
  import opened MonitorRuns
  import opened DropEvidence

  /** The most cycles a pass can take. */
  function CycleBound(cfg: Config, pace: Pace): int
    requires pace.step > 0.0
  {
    (MostLeft(cfg, pace) / pace.step).Floor + 2
  }

  /** The steps `c` cycles took: the first may have come at once. */
  function Steps(pace: Pace, c: nat): real {
    Scaled(if c == 0 then 0 else c - 1, pace.step)
  }

  /** A row before cycle `c`, last polled at `last`: the steps taken and what is left never exceed the whole. */
  predicate Spends(cfg: Config, pace: Pace, r: Row, last: real, now: real, c: nat) {
    r.Active() ==>
      && Sound(cfg, pace, r, last, now)
      && Steps(pace, c) + RowLeft(cfg, pace, r, last) <= MostLeft(cfg, pace)
  }

  lemma StepsOn(pace: Pace, c: nat)
    ensures Steps(pace, c + 1) == Steps(pace, c) + if c == 0 then 0.0 else pace.step
  {
    if c > 0 {
      assert c as real == (c - 1) as real + 1.0;
    }
  }

  lemma PollSpends(cfg: Config, pace: Pace, life: Life, input: PollInput, last: real, now: real, c: nat)
    requires Configured(cfg) && pace.step > 0.0 && Spends(cfg, pace, life.row, last, now, c)
    requires c == 0 ==> life.row == FreshRow(pace.start) && last == pace.start
    requires last + (if c == 0 then 0.0 else pace.step) <= input.poll.now && now <= input.poll.now
    requires 0 <= input.poll.probe.imported <= pace.n
    ensures Spends(cfg, pace, AfterPoll(cfg, life, input).row, input.poll.now, input.poll.now, c + 1)
  {
    if AfterPoll(cfg, life, input).row.Active() {
      StepsOn(pace, c);
      if c == 0 {
        FirstPollTakesNothingBack(cfg, pace, input.poll);
      } else {
        PollTakesAStep(cfg, pace, life.row, input.poll, last, now);
      }
    }
  }

  lemma {:induction false} BarsSpend(cfg: Config, pace: Pace, life: Life, rows: nat, polls: nat -> seq<PollInput>,
                                     slices: nat -> seq<seq<ProgressInput>>, i: nat, c: nat, s: nat)
    requires Configured(cfg) && WellPaced(pace, rows, polls, slices) && i < rows && s <= |slices(c)|
    requires Spends(cfg, pace, life.row, polls(c)[i].poll.now, polls(c)[i].poll.now, c + 1)
    ensures Spends(cfg, pace, AfterBars(life, slices(c), i, s).row, polls(c)[i].poll.now,
                   SliceInstants(rows, polls, slices, c, s)[i], c + 1)
  {
    if s > 0 {
      BarsSpend(cfg, pace, life, rows, polls, slices, i, c, s - 1);
      var before := AfterBars(life, slices(c), i, s - 1);
      assert SlicePaced(pace, rows, polls, slices, c, s - 1, i);
      if before.row.Active() {
        RefreshGivesNothing(cfg, pace, before.row, slices(c)[s - 1][i].progress, polls(c)[i].poll.now,
                            SliceInstants(rows, polls, slices, c, s - 1)[i]);
      }
    }
  }

  lemma {:induction false} LifeSpends(cfg: Config, pace: Pace, rows: nat, polls: nat -> seq<PollInput>,
                                      slices: nat -> seq<seq<ProgressInput>>, i: nat, kept: bool, c: nat)
    requires Configured(cfg) && WellPaced(pace, rows, polls, slices) && i < rows
    ensures Spends(cfg, pace, LifeAfter(cfg, Life(FreshRow(pace.start), kept), rows, polls, slices, i, c).row,
                   LastPolls(pace, rows, polls, c)[i], LastInstants(pace, rows, polls, slices, c)[i], c)
  {
    var life := Life(FreshRow(pace.start), kept);
    if c > 0 {
      LifeSpends(cfg, pace, rows, polls, slices, i, kept, c - 1);
      var before := LifeAfter(cfg, life, rows, polls, slices, i, c - 1);
      assert PollPaced(pace, rows, polls, slices, c - 1, i);
      PollSpends(cfg, pace, before, polls(c - 1)[i], LastPolls(pace, rows, polls, c - 1)[i],
                 LastInstants(pace, rows, polls, slices, c - 1)[i], c - 1);
      BarsSpend(cfg, pace, AfterPoll(cfg, before, polls(c - 1)[i]), rows, polls, slices, i, c - 1, |slices(c - 1)|);
    }
  }

  lemma QuotientAbove(c: nat, step: real, bound: real)
    requires step > 0.0 && Scaled(c, step) <= bound
    ensures c <= (bound / step).Floor
  {
    var q := bound / step;
    assert q * step == bound;
    assert c as real <= q by {
      assert (q - c as real) * step >= 0.0;
    }
  }

  /** A row that starts fresh is not active past the bound, however far apart its polls come. */
  lemma CyclesAreBounded(cfg: Config, pace: Pace, rows: nat, polls: nat -> seq<PollInput>,
                         slices: nat -> seq<seq<ProgressInput>>, i: nat, kept: bool, c: nat)
    requires Configured(cfg) && WellPaced(pace, rows, polls, slices) && i < rows
    requires LifeAfter(cfg, Life(FreshRow(pace.start), kept), rows, polls, slices, i, c).row.Active()
    ensures c < CycleBound(cfg, pace)
  {
    LifeSpends(cfg, pace, rows, polls, slices, i, kept, c);
    var row := LifeAfter(cfg, Life(FreshRow(pace.start), kept), rows, polls, slices, i, c).row;
    LeftIsBounded(cfg, pace, row, LastPolls(pace, rows, polls, c)[i], LastInstants(pace, rows, polls, slices, c)[i]);
    QuotientAbove(if c == 0 then 0 else c - 1, pace.step, MostLeft(cfg, pace));
  }

  /** A run with an active row is short of the bound. */
  lemma BusyRunIsEarly(cfg: Config, pace: Pace, ps: Pass, polls: nat -> seq<PollInput>,
                       slices: nat -> seq<seq<ProgressInput>>, c: nat)
    requires Starting(cfg, pace, ps, polls, slices) && SomeActive(MonitorRun(cfg, ps, polls, slices, c))
    ensures c < CycleBound(cfg, pace)
  {
    var i :| 0 <= i < |ps.entries| && MonitorRun(cfg, ps, polls, slices, c).entries[i].row.Active();
    var after := RunLives(cfg, ps, polls, slices, i, Life(FreshRow(pace.start), Stored(ps, i)), c);
    CyclesAreBounded(cfg, pace, |ps.entries|, polls, slices, i, Stored(ps, i), c);
  }

  lemma BusyRunsAreEarly(cfg: Config, pace: Pace, ps: Pass, polls: nat -> seq<PollInput>,
                         slices: nat -> seq<seq<ProgressInput>>)
    requires Starting(cfg, pace, ps, polls, slices)
    ensures forall c: nat :: SomeActive(MonitorRun(cfg, ps, polls, slices, c)) ==> c < CycleBound(cfg, pace)
  {
    forall c: nat | SomeActive(MonitorRun(cfg, ps, polls, slices, c)) ensures c < CycleBound(cfg, pace) {
      BusyRunIsEarly(cfg, pace, ps, polls, slices, c);
    }
  }

  /** A monitor's end: conserved, no row active, and a result for each. */
  ghost predicate Finished(start: Pass, ps: Pass) {
    Conserved(ps) && Continues(start, ps) && !SomeActive(ps) && |ps.results| == |ps.entries|
  }

  /** A run without one is finished, whatever its instants. */
  lemma IdleRunIsFinished(cfg: Config, ps: Pass, polls: nat -> seq<PollInput>,
                          slices: nat -> seq<seq<ProgressInput>>, c: nat)
    requires Conserved(ps) && Sized(|ps.entries|, polls, slices)
    requires !SomeActive(MonitorRun(cfg, ps, polls, slices, c))
    ensures Finished(ps, MonitorRun(cfg, ps, polls, slices, c))
  {
    var after := MonitorRun(cfg, ps, polls, slices, c);
    RunConserves(cfg, ps, polls, slices, c);
    NoneActive(after.entries);
    ResultsAndActiveAreAllRows(after.entries);
    assert |multiset(after.results)| == |after.results|;
  }
}
