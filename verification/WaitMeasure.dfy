/** What a row's wait has left: a measure each heavy poll that keeps the row takes at least a step from, however far
  * apart the polls come.
  */
module WaitMeasure {
  import opened ReadyClocks
  import opened WaitRows
  import opened BoundedWait

  /** The pass starts at `start`; two polls of a row are at least `step` apart, the first perhaps at once; no done-count
    * passes `n`.
    */
  datatype Pace = Pace(start: real, step: real, n: nat)

  function Clamp(x: real, high: real): real {
    if x < 0.0 then 0.0 else if x > high then high else x
  }

  /** How much of the timeout the last poll left, an anchor ahead of it counting a step at most. */
  function SlackLeft(pace: Pace, c: ClockState): real
    requires c.pollAt.Some?
  {
    Clamp(c.timeout - (c.pollAt.value - c.anchor), c.timeout + pace.step)
  }

  /** Credit still to be earned, and a step for the deferral that exhausts it. */
  function CreditLeft(pace: Pace, c: ClockState): real {
    c.Cap() - c.credited + if c.credited < c.Cap() then pace.step else 0.0
  }

  /** Each landing still to come may give back the whole slack. */
  function LandingsLeft(pace: Pace, timeout: real, seen: int): real {
    Scaled(pace.n - seen, timeout + 2.0 * pace.step)
  }

  function ClockLeft(pace: Pace, c: ClockState): real
    requires c.pollAt.Some?
  {
    LandingsLeft(pace, c.timeout, SeenCount(c)) + CreditLeft(pace, c) + SlackLeft(pace, c)
  }

  function MostClockLeft(cfg: Config, pace: Pace): real {
    LandingsLeft(pace, cfg.readyTimeout, 0) + 7.0 * cfg.readyTimeout + 2.0 * pace.step
  }

  function DownloadLeft(cfg: Config, r: Row, last: real): real {
    Clamp(cfg.waitTimeout - (last - r.dlStart), cfg.waitTimeout)
  }

  /** What an active row last polled at `last` has left. */
  function RowLeft(cfg: Config, pace: Pace, r: Row, last: real): real
    requires r.clock.Some? ==> r.clock.value.pollAt.Some?
  {
    DownloadLeft(cfg, r, last)
    + match r.clock
      case None => MostClockLeft(cfg, pace) + pace.step
      case Some(c) => ClockLeft(pace, c)
  }

  /** What a whole pass has for a row. */
  function MostLeft(cfg: Config, pace: Pace): real {
    cfg.waitTimeout + MostClockLeft(cfg, pace) + pace.step
  }

  /** A row last polled at `last` whose clock, if any, reads soundly at `now`. */
  predicate Sound(cfg: Config, pace: Pace, r: Row, last: real, now: real) {
    && r.dlStart <= last <= now
    && (r.clock.Some? ==>
          var c := r.clock.value;
          && c.timeout == cfg.readyTimeout
          && Credible(c, now)
          && c.pollAt.Some? && c.pollAt.value <= last
          && 0 <= SeenCount(c) <= pace.n)
  }

  predicate Configured(cfg: Config) {
    cfg.monitor && cfg.readyTimeout > 0.0 && cfg.waitTimeout > 0.0
  }

  lemma LeftIsBounded(cfg: Config, pace: Pace, r: Row, last: real, now: real)
    requires Configured(cfg) && pace.step > 0.0 && Sound(cfg, pace, r, last, now)
    ensures 0.0 <= RowLeft(cfg, pace, r, last) <= MostLeft(cfg, pace)
    ensures r.clock.Some? ==> ClockLeft(pace, r.clock.value) <= MostClockLeft(cfg, pace)
  {
    var k := cfg.readyTimeout + 2.0 * pace.step;
    ScaledBySteps(0, pace.n, k);
    if r.clock.Some? {
      var c := r.clock.value;
      ScaledBySteps(pace.n - SeenCount(c), pace.n, k);
      ScaledBySteps(0, pace.n - SeenCount(c), k);
      assert c.Cap() == 6.0 * c.timeout;
    }
  }

  /** A reading leaves a landing's worth less when it lands, and no more landings than before when not. */
  lemma NoteTakes(pace: Pace, c: ClockState, done: int, total: int, now: real)
    requires c.timeout > 0.0 && pace.step > 0.0 && 0 <= SeenCount(c) <= pace.n && 0 <= done <= pace.n
    ensures
      var noted := c.NoteProgress(done, total, now);
      var k := c.timeout + 2.0 * pace.step;
      && 0 <= SeenCount(noted) <= pace.n
      && LandingsLeft(pace, c.timeout, SeenCount(noted))
           + (if c.Lands(done, total) then k else 0.0) <= LandingsLeft(pace, c.timeout, SeenCount(c))
  {
    var noted := c.NoteProgress(done, total, now);
    ScaledBySteps(pace.n - SeenCount(noted), pace.n - SeenCount(c), c.timeout + 2.0 * pace.step);
  }

  /** A poll that keeps the row with its clock takes a step from what the clock has left. */
  lemma PollTakesFromClock(pace: Pace, c: ClockState, probe: Probe, now: real)
    requires c.timeout > 0.0 && pace.step > 0.0 && c.pollAt.Some? && c.pollAt.value + pace.step <= now
    requires Credible(c, now) && 0 <= SeenCount(c) <= pace.n && 0 <= probe.imported <= pace.n
    requires ImportPhase(c.MarkPoll(now), probe, now).Importing?
    ensures
      var next := NotedClock(c.MarkPoll(now), probe, now);
      ClockLeft(pace, next) + pace.step <= ClockLeft(pace, c)
  {
    var marked := c.MarkPoll(now);
    NoteTakes(pace, marked, probe.imported, probe.target, now);
  }

  lemma PollTakesAStep(cfg: Config, pace: Pace, r: Row, p: Poll, last: real, now: real)
    requires Configured(cfg) && pace.step > 0.0 && Sound(cfg, pace, r, last, now) && r.Active()
    requires last + pace.step <= p.now && now <= p.now && 0 <= p.probe.imported <= pace.n
    requires Advance(cfg, r, p).Active()
    ensures Sound(cfg, pace, Advance(cfg, r, p), p.now, p.now)
    ensures RowLeft(cfg, pace, Advance(cfg, r, p), p.now) + pace.step <= RowLeft(cfg, pace, r, last)
  {
    PollKeepsSound(cfg, pace, r, p, last, now);
    if Polled(p).IsComplete() {
      if r.clock.Some? {
        PollTakesFromClock(pace, r.clock.value, p.probe, p.now);
      } else {
        LeftIsBounded(cfg, pace, Advance(cfg, r, p), p.now, p.now);
      }
    }
  }

  lemma PollKeepsSound(cfg: Config, pace: Pace, r: Row, p: Poll, last: real, now: real)
    requires Configured(cfg) && pace.step > 0.0 && Sound(cfg, pace, r, last, now) && r.Active()
    requires now <= p.now && 0 <= p.probe.imported <= pace.n && Advance(cfg, r, p).Active()
    ensures Sound(cfg, pace, Advance(cfg, r, p), p.now, p.now)
  {
  }

  /** The first poll may come at once. */
  lemma FirstPollTakesNothingBack(cfg: Config, pace: Pace, p: Poll)
    requires Configured(cfg) && pace.step > 0.0 && pace.start <= p.now && 0 <= p.probe.imported <= pace.n
    requires Advance(cfg, FreshRow(pace.start), p).Active()
    ensures Sound(cfg, pace, Advance(cfg, FreshRow(pace.start), p), p.now, p.now)
    ensures RowLeft(cfg, pace, Advance(cfg, FreshRow(pace.start), p), p.now) <= MostLeft(cfg, pace)
  {
    PollKeepsSound(cfg, pace, FreshRow(pace.start), p, pace.start, pace.start);
    LeftIsBounded(cfg, pace, Advance(cfg, FreshRow(pace.start), p), p.now, p.now);
  }

  /** A refresh gives nothing back. */
  lemma RefreshGivesNothing(cfg: Config, pace: Pace, r: Row, f: Progress, last: real, now: real)
    requires Configured(cfg) && pace.step > 0.0 && Sound(cfg, pace, r, last, now)
    requires now <= f.now && 0 <= f.done <= pace.n
    ensures Sound(cfg, pace, Refresh(r, f), last, f.now)
    ensures RowLeft(cfg, pace, Refresh(r, f), last) <= RowLeft(cfg, pace, r, last)
  {
    if r.clock.Some? {
      NoteTakes(pace, r.clock.value, f.done, f.total, f.now);
    }
  }
}
