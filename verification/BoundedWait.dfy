/** How long a row can stay in the watch.
  *
  * A ready timeout bounds a stall, not a whole copy: the anchor follows landings and deferral credit. These
  * lemmas bound the whole wait anyway, over every sequence of polls and fast-lane refreshes of one row.
  */
module BoundedWait {
  import opened Wrappers
  import opened ReadyClocks
  import opened WaitRows

  datatype Event = Polled(poll: Poll) | Refreshed(progress: Progress) {
    function At(): real {
      if Polled? then poll.now else progress.now
    }

    /** A poll that found the download complete, with a path to import. */
    predicate IsComplete() {
      Polled? && poll.reading.Complete? && poll.reading.hasPath
    }

    function Count(): int {
      if Polled? then poll.probe.imported else progress.done
    }
  }

  function Apply(cfg: Config, r: Row, e: Event): Row {
    if !r.Active() then r
    else if e.Polled? then Advance(cfg, r, e.poll)
    else Refresh(r, e.progress)
  }

  function Run(cfg: Config, start: real, es: seq<Event>): Row {
    if es == [] then FreshRow(start) else Apply(cfg, Run(cfg, start, es[..|es| - 1]), es[|es| - 1])
  }

  /** The instant of the newest COMPLETE poll. */
  function LastComplete(es: seq<Event>): Option<real> {
    if es == [] then None
    else if es[|es| - 1].IsComplete() then Some(es[|es| - 1].At())
    else LastComplete(es[..|es| - 1])
  }

  /** The instant of the first COMPLETE poll. */
  function FirstComplete(es: seq<Event>): Option<real> {
    if es == [] then None
    else if FirstComplete(es[..|es| - 1]).Some? then FirstComplete(es[..|es| - 1])
    else if es[|es| - 1].IsComplete() then Some(es[|es| - 1].At())
    else None
  }

  /** The newest instant of a trace that starts at `start`. */
  function Latest(start: real, es: seq<Event>): real {
    if es == [] then start else es[|es| - 1].At()
  }

  /** Instants never step back, COMPLETE polls are at most `gap` apart, and done-counts stay within 0..n. */
  predicate Paced(start: real, es: seq<Event>, gap: real, n: nat) {
    es == [] ||
    (var before, e := es[..|es| - 1], es[|es| - 1];
     && Paced(start, before, gap, n)
     && Latest(start, before) <= e.At()
     && 0 <= e.Count() <= n
     && (e.IsComplete() && LastComplete(before).Some? ==> e.At() - LastComplete(before).value <= gap))
  }

  function SeenCount(c: ClockState): int {
    c.seen.GetOr(0)
  }

  /** What every poll that keeps its row active leaves of the clock, `gap` bounding the poll interval and
    * `budget` what landings may have moved the anchor by: the slack at the poll is below the timeout, save for
    * one extra gap that only the poll exhausting the credit cap can open.
    */
  predicate HeldBy(c: ClockState, gap: real, budget: real) {
    && c.timeout > 0.0 && gap >= 0.0
    && c.pollAt.Some?
    && c.started <= c.anchor
    && 0.0 <= c.credited <= c.Cap()
    && SeenCount(c) >= 0
    && (|| (&& c.pollAt.value - c.anchor < c.timeout
            && c.anchor - c.started <= c.credited + budget + (if c.credited == c.Cap() then gap else 0.0))
        || (&& c.credited == c.Cap()
            && c.timeout <= c.pollAt.value - c.anchor < c.timeout + gap
            && c.anchor - c.started <= c.credited + budget))
  }

  function Scaled(steps: int, k: real): real {
    steps as real * k
  }

  /** Each landing may move the anchor by a timeout and a gap. */
  function LandingBudget(c: ClockState, gap: real): real {
    Scaled(SeenCount(c), c.timeout + gap)
  }

  predicate Held(c: ClockState, gap: real) {
    HeldBy(c, gap, LandingBudget(c, gap))
  }

  lemma ScaledBySteps(s: int, more: int, k: real)
    requires 0 <= s <= more && k >= 0.0
    ensures Scaled(s, k) <= Scaled(more, k)
    ensures s < more ==> Scaled(s, k) + k <= Scaled(more, k)
  {
    var step := (more - s) as real;
    assert Scaled(more, k) == Scaled(s, k) + step * k;
    if s < more {
      assert step * k >= k by {
        assert (step - 1.0) * k >= 0.0;
      }
    } else {
      assert step * k == 0.0;
    }
  }

  /** A later reading has a larger budget, by a whole timeout and gap when it is a landing. */
  lemma BudgetGrows(c: ClockState, gap: real, done: int, total: int, now: real)
    requires c.timeout > 0.0 && gap >= 0.0 && SeenCount(c) >= 0 && done >= 0
    ensures
      var next := c.NoteProgress(done, total, now);
      && SeenCount(next) >= 0
      && LandingBudget(c, gap) <= LandingBudget(next, gap)
      && (c.Lands(done, total) ==> LandingBudget(c, gap) + c.timeout + gap <= LandingBudget(next, gap))
  {
    ScaledBySteps(SeenCount(c), SeenCount(c.NoteProgress(done, total, now)), c.timeout + gap);
  }

  lemma HeldAfterProgress(c: ClockState, gap: real, done: int, total: int, now: real)
    requires Held(c, gap)
    requires c.anchor <= now && c.pollAt.value <= now <= c.pollAt.value + gap && done >= 0
    ensures Held(c.NoteProgress(done, total, now), gap)
  {
    BudgetGrows(c, gap, done, total, now);
    HeldByAfterProgress(c, gap, LandingBudget(c, gap), done, total, now,
                        LandingBudget(c.NoteProgress(done, total, now), gap));
  }

  lemma HeldByAfterProgress(c: ClockState, gap: real, budget: real, done: int, total: int, now: real, more: real)
    requires HeldBy(c, gap, budget) && budget <= more
    requires c.Lands(done, total) ==> budget + c.timeout + gap <= more
    requires c.anchor <= now && c.pollAt.value <= now <= c.pollAt.value + gap && done >= 0
    ensures HeldBy(c.NoteProgress(done, total, now), gap, more)
  {
  }

  /** A COMPLETE poll that keeps its row active keeps the clock within bounds. */
  lemma HeldAfterPoll(c: ClockState, gap: real, probe: Probe, now: real)
    requires Held(c, gap)
    requires c.anchor <= now && c.pollAt.value <= now <= c.pollAt.value + gap && probe.imported >= 0
    requires ImportPhase(c.MarkPoll(now), probe, now).Importing?
    ensures Held(NotedClock(c.MarkPoll(now), probe, now), gap)
  {
    BudgetGrows(c.MarkPoll(now), gap, probe.imported, probe.target, now);
    HeldByAfterPoll(c, gap, LandingBudget(c, gap), probe, now,
                    LandingBudget(NotedClock(c.MarkPoll(now), probe, now), gap));
  }

  lemma HeldByAfterPoll(c: ClockState, gap: real, budget: real, probe: Probe, now: real, more: real)
    requires HeldBy(c, gap, budget) && budget <= more
    requires c.Lands(probe.imported, probe.target) ==> budget + c.timeout + gap <= more
    requires c.anchor <= now && c.pollAt.value <= now <= c.pollAt.value + gap && probe.imported >= 0
    requires ImportPhase(c.MarkPoll(now), probe, now).Importing?
    ensures HeldBy(NotedClock(c.MarkPoll(now), probe, now), gap, more)
  {
  }

  lemma HeldAfterFirstPoll(cfg: Config, gap: real, probe: Probe, now: real)
    requires cfg.readyTimeout > 0.0 && gap >= 0.0 && probe.imported >= 0
    ensures Held(NotedClock(NewClock(cfg.readyTimeout, now).MarkPoll(now), probe, now), gap)
  {
    BudgetGrows(NewClock(cfg.readyTimeout, now).MarkPoll(now), gap, probe.imported, probe.target, now);
  }

  /** The invariant of an active row at instant `now`: its clock exists from its first COMPLETE poll on, stays
    * anchored in the past, and is `Held` for as long as a next COMPLETE poll could still come in time.
    */
  predicate RowHeld(cfg: Config, r: Row, gap: real, now: real) {
    && (r.phase.Importing? ==> r.clock.Some?)
    && (r.clock.Some? ==>
          var c := r.clock.value;
          && c.timeout == cfg.readyTimeout
          && c.anchor <= now
          && c.pollAt.Some? && c.pollAt.value <= now
          && (now <= c.pollAt.value + gap ==> Held(c, gap)))
  }

  lemma RowHeldAfter(cfg: Config, r: Row, e: Event, gap: real, was: real)
    requires cfg.readyTimeout > 0.0 && gap >= 0.0
    requires RowHeld(cfg, r, gap, was) && was <= e.At() && e.Count() >= 0
    requires e.IsComplete() && r.clock.Some? ==> e.At() - r.clock.value.pollAt.value <= gap
    requires r.Active() && Apply(cfg, r, e).Active()
    ensures RowHeld(cfg, Apply(cfg, r, e), gap, e.At())
  {
    if e.IsComplete() {
      if r.clock.None? {
        HeldAfterFirstPoll(cfg, gap, e.poll.probe, e.At());
      } else {
        HeldAfterPoll(r.clock.value, gap, e.poll.probe, e.At());
      }
    } else if e.Refreshed? && r.clock.Some? && e.At() <= r.clock.value.pollAt.value + gap {
      HeldAfterProgress(r.clock.value, gap, e.progress.done, e.progress.total, e.At());
    }
  }

  /** The clock's own fields carry the trace facts the bound speaks of. */
  lemma {:induction false} RunIsHeld(cfg: Config, start: real, es: seq<Event>, gap: real, n: nat)
    requires cfg.readyTimeout > 0.0 && gap >= 0.0 && Paced(start, es, gap, n)
    requires Run(cfg, start, es).Active()
    ensures
      var r := Run(cfg, start, es);
      && RowHeld(cfg, r, gap, Latest(start, es))
      && (r.clock.Some? <==> LastComplete(es).Some?)
      && (r.clock.Some? <==> FirstComplete(es).Some?)
      && (r.clock.Some? ==>
            && r.clock.value.pollAt == LastComplete(es)
            && Some(r.clock.value.started) == FirstComplete(es)
            && 0 <= SeenCount(r.clock.value) <= n)
  {
    if es != [] {
      var before, e := es[..|es| - 1], es[|es| - 1];
      RunIsHeld(cfg, start, before, gap, n);
      RowHeldAfter(cfg, Run(cfg, start, before), e, gap, Latest(start, before));
    }
  }

  function WaitBound(timeout: real, gap: real, n: nat): real {
    (n as real + 7.0) * timeout + (n as real + 1.0) * gap
  }

  lemma BoundExpands(timeout: real, gap: real, n: nat)
    ensures WaitBound(timeout, gap, n) == Scaled(n, timeout + gap) + 7.0 * timeout + gap
  {
    var x := n as real;
    assert (x + 7.0) * timeout == x * timeout + 7.0 * timeout;
    assert (x + 1.0) * gap == x * gap + gap;
    assert x * (timeout + gap) == x * timeout + x * gap;
  }

  /** No poll leaves a row active later than `WaitBound` after the row's first COMPLETE poll, whatever mix of
    * deferrals, landings and refreshes the run saw.
    */
  lemma BoundedWaitTheorem(cfg: Config, start: real, es: seq<Event>, gap: real, n: nat)
    requires cfg.readyTimeout > 0.0 && gap >= 0.0 && Paced(start, es, gap, n)
    requires es != [] && es[|es| - 1].IsComplete() && Run(cfg, start, es).Active()
    ensures FirstComplete(es).Some?
    ensures es[|es| - 1].At() - FirstComplete(es).value < WaitBound(cfg.readyTimeout, gap, n)
  {
    RunIsHeld(cfg, start, es, gap, n);
    var c := Run(cfg, start, es).clock.value;
    ScaledBySteps(SeenCount(c), n, c.timeout + gap);
    BoundExpands(c.timeout, gap, n);
    assert c.Cap() == 6.0 * c.timeout;
  }

  /** Credit never passes the cap, and the anchor never steps back nor runs ahead of the clock. */
  predicate Credible(c: ClockState, now: real) {
    && 0.0 <= c.credited <= c.Cap()
    && c.anchor <= now
    && (c.pollAt.Some? ==> c.pollAt.value <= now)
  }

  lemma StepIsCredible(cfg: Config, r: Row, e: Event, was: real)
    requires cfg.readyTimeout > 0.0 && was <= e.At()
    requires r.clock.Some? ==> Credible(r.clock.value, was)
    ensures
      var next := Apply(cfg, r, e);
      && (next.clock.Some? ==> Credible(next.clock.value, e.At()))
      && (r.clock.Some? ==>
            && next.clock.Some?
            && r.clock.value.anchor <= next.clock.value.anchor
            && r.clock.value.credited <= next.clock.value.credited
            && next.clock.value.timeout == r.clock.value.timeout)
  {
  }

  predicate Monotone(start: real, es: seq<Event>) {
    es == [] || (Monotone(start, es[..|es| - 1]) && Latest(start, es[..|es| - 1]) <= es[|es| - 1].At())
  }

  function RunOn(cfg: Config, r: Row, es: seq<Event>): Row {
    if es == [] then r else Apply(cfg, RunOn(cfg, r, es[..|es| - 1]), es[|es| - 1])
  }

  lemma {:induction false} RunIsCredible(cfg: Config, r: Row, start: real, es: seq<Event>)
    requires cfg.readyTimeout > 0.0 && Monotone(start, es)
    requires r.clock.Some? ==> Credible(r.clock.value, start)
    ensures
      var end := RunOn(cfg, r, es);
      && (end.clock.Some? ==> Credible(end.clock.value, Latest(start, es)))
      && (r.clock.Some? ==> end.clock.Some? && r.clock.value.anchor <= end.clock.value.anchor)
  {
    if es != [] {
      RunIsCredible(cfg, r, start, es[..|es| - 1]);
      StepIsCredible(cfg, RunOn(cfg, r, es[..|es| - 1]), es[|es| - 1], Latest(start, es[..|es| - 1]));
    }
  }

  /** A row is given up as exhausted only after a whole stall: at least the ready timeout has passed since every
    * landing and since the first COMPLETE poll.
    */
  lemma ExhaustedOnlyAfterAStall(cfg: Config, r: Row, was: real, landing: Event, es: seq<Event>, last: Event)
    requires cfg.readyTimeout > 0.0 && was <= landing.At() && Monotone(landing.At(), es)
    requires r.clock.Some? ==> Credible(r.clock.value, was) && r.clock.value.timeout == cfg.readyTimeout
    requires
      var next := Apply(cfg, r, landing);
      next.Active() && next.clock.Some? && next.clock.value.anchor == landing.At()
    requires
      var end := RunOn(cfg, Apply(cfg, r, landing), es);
      end.Active() && Apply(cfg, end, last).phase.Terminal? && Exhausted(Apply(cfg, end, last).phase.outcome)
    ensures last.At() - landing.At() >= cfg.readyTimeout
  {
    StepIsCredible(cfg, r, landing, was);
    RunIsCredible(cfg, Apply(cfg, r, landing), landing.At(), es);
    TimeoutIsFixed(cfg, Apply(cfg, r, landing), es);
  }

  lemma {:induction false} TimeoutIsFixed(cfg: Config, r: Row, es: seq<Event>)
    requires r.clock.Some?
    ensures
      var end := RunOn(cfg, r, es);
      end.clock.Some? && end.clock.value.timeout == r.clock.value.timeout
  {
    if es != [] {
      TimeoutIsFixed(cfg, r, es[..|es| - 1]);
    }
  }
}
