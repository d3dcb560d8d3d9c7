/** What a poll makes of a row's clock, told without the clock's own mark: which polls earn credit, that a command
  * issued earns it once, and where a row without credit or landing ends.
  */
module ClockLaws {
  import opened Wrappers
  import opened ReadyClocks
  import opened WaitRows
  import opened BoundedWait

  /** A COMPLETE poll whose attempt issued a command. */
  predicate Issues(e: Event) {
    e.IsComplete() && e.poll.probe.deferral == Issued
  }

  /** The poll counts more files than the row has seen. */
  predicate LandsOn(r: Row, p: Poll) {
    r.clock.Some? && p.probe.target > 0 && r.clock.value.seen.Some? && p.probe.imported > r.clock.value.seen.value
  }

  /** The credit a deferral may still earn: the interval since the last COMPLETE poll, up to six timeouts in all. */
  function Earnable(c: ClockState, now: real): real {
    var gap := if c.pollAt.Some? then now - c.pollAt.value else 0.0;
    var room := 6.0 * c.timeout - c.credited;
    if room <= 0.0 then 0.0 else if gap <= room then gap else room
  }

  /** The clock gained just that credit, and its anchor as much, though not past now. */
  predicate Earned(c: ClockState, after: ClockState, now: real) {
    var credit := Earnable(c, now);
    && after.credited == c.credited + credit
    && after.anchor == if c.anchor + credit <= now then c.anchor + credit else now
  }

  predicate Untouched(c: ClockState, after: ClockState) {
    after.credited == c.credited && after.anchor == c.anchor
  }

  /** What a COMPLETE poll makes of the clock. A landing re-anchors it. Without one, waiting on an import in flight or a
    * busy Sonarr earns credit, waiting on neither does not, and a command issued does at most.
    */
  lemma PollMovesClock(cfg: Config, r: Row, p: Poll)
    requires r.clock.Some? && r.clock.value.anchor <= p.now && p.reading == Complete(true)
    ensures Advance(cfg, r, p).clock.Some?
    ensures
      var c, after := r.clock.value, Advance(cfg, r, p).clock.value;
      && after.timeout == c.timeout && after.started == c.started && after.pollAt == Some(p.now)
      && after.seen ==
           (if p.probe.target <= 0 || (c.seen.Some? && c.seen.value >= p.probe.imported) then c.seen
            else Some(p.probe.imported))
      && (LandsOn(r, p) ==> after.anchor == p.now && after.credited == c.credited)
      && (!LandsOn(r, p) ==>
            match p.probe.deferral
            case NoDeferral => Untouched(c, after)
            case Issued => Untouched(c, after) || Earned(c, after, p.now)
            case _ => Earned(c, after, p.now))
  {
    assert r.clock.value.Cap() == 6.0 * r.clock.value.timeout;
  }

  /** The first COMPLETE poll anchors the clock where it is, with nothing earned yet. */
  lemma FirstPollStartsClock(cfg: Config, r: Row, p: Poll)
    requires r.clock.None? && p.reading == Complete(true) && cfg.readyTimeout > 0.0
    ensures Advance(cfg, r, p).clock.Some?
    ensures
      var c := Advance(cfg, r, p).clock.value;
      && c.timeout == cfg.readyTimeout && c.started == c.anchor == p.now && c.credited == 0.0
      && c.pollAt == Some(p.now) && c.seen == if p.probe.target <= 0 then None else Some(p.probe.imported)
  {
  }

  // A command issued earns credit once.

  /** The clock can earn nothing more for a command issued. */
  predicate Spent(r: Row) {
    r.clock.Some? && (r.clock.value.issuedCredited || r.clock.value.credited >= r.clock.value.Cap())
  }

  lemma IssueSpends(cfg: Config, r: Row, first: Event)
    requires Issues(first) && !LandsOn(r, first.poll)
    ensures Spent(Apply(cfg, r, first)) || !r.Active()
  {
  }

  lemma {:induction false} SpentStays(cfg: Config, r: Row, es: seq<Event>)
    requires Spent(r)
    ensures Spent(RunOn(cfg, r, es))
  {
    if es != [] {
      SpentStays(cfg, r, es[..|es| - 1]);
    }
  }

  /** Once a poll that issued a command, without a landing, has kept the row, no later one that does raises its credit
    * or moves its anchor, whatever came between; and such a poll ends the row once the timeout has passed since the
    * anchor.
    */
  lemma IssuedEarnsOnce(cfg: Config, r: Row, first: Event, es: seq<Event>, last: Event)
    requires r.Active() && Issues(first) && !LandsOn(r, first.poll) && Apply(cfg, r, first).Active()
    requires
      var before := RunOn(cfg, Apply(cfg, r, first), es);
      before.Active() && Issues(last) && !LandsOn(before, last.poll)
    ensures
      var before := RunOn(cfg, Apply(cfg, r, first), es);
      var after := Apply(cfg, before, last);
      && before.clock.Some? && after.clock.Some?
      && Untouched(before.clock.value, after.clock.value)
      && (last.At() - before.clock.value.anchor >= before.clock.value.timeout ==> !after.Active())
  {
    IssueSpends(cfg, r, first);
    SpentStays(cfg, Apply(cfg, r, first), es);
  }

  predicate NoneIssues(es: seq<Event>) {
    forall i :: 0 <= i < |es| ==> !Issues(es[i])
  }

  lemma {:induction false} UnissuedStays(cfg: Config, start: real, es: seq<Event>)
    requires NoneIssues(es)
    ensures Run(cfg, start, es).clock.Some? ==> !Run(cfg, start, es).clock.value.issuedCredited
  {
    if es != [] {
      UnissuedStays(cfg, start, es[..|es| - 1]);
      assert !Issues(es[|es| - 1]);
    }
  }

  /** The first command issued does earn it. */
  lemma FirstIssueEarns(cfg: Config, start: real, es: seq<Event>, last: Event)
    requires cfg.readyTimeout > 0.0 && Monotone(start, es) && Latest(start, es) <= last.At()
    requires NoneIssues(es) && Issues(last)
    requires
      var before := Run(cfg, start, es);
      before.Active() && before.clock.Some? && !LandsOn(before, last.poll)
    ensures
      var before, after := Run(cfg, start, es), Apply(cfg, Run(cfg, start, es), last);
      after.clock.Some? && Earned(before.clock.value, after.clock.value, last.At())
  {
    UnissuedStays(cfg, start, es);
    RunsFromFresh(cfg, start, es);
    RunIsCredible(cfg, FreshRow(start), start, es);
    var c := Run(cfg, start, es).clock.value;
    assert c.Cap() == 6.0 * c.timeout;
  }

  lemma {:induction false} RunsFromFresh(cfg: Config, start: real, es: seq<Event>)
    ensures Run(cfg, start, es) == RunOn(cfg, FreshRow(start), es)
  {
    if es != [] {
      RunsFromFresh(cfg, start, es[..|es| - 1]);
    }
  }

  // Where a poll leaves the row.

  /** A poll earns the row time: a landing, or a deferral that earns credit. */
  predicate EarnsTime(cfg: Config, r: Row, p: Poll) {
    || LandsOn(r, p)
    || (&& p.probe.deferral != NoDeferral
        && (r.clock.Some? ==> r.clock.value.credited < 6.0 * r.clock.value.timeout)
        && (p.probe.deferral == Issued && r.clock.Some? ==> !r.clock.value.issuedCredited))
  }

  /** The stall: the timeout has passed since the anchor. A first COMPLETE poll is its own anchor. */
  predicate Stalled(r: Row, now: real) {
    r.clock.Some? && now - r.clock.value.anchor >= r.clock.value.timeout
  }

  /** Where a poll leaves an active row, reading by reading. */
  lemma PollEnds(cfg: Config, r: Row, p: Poll)
    requires cfg.readyTimeout > 0.0 && r.Active()
    ensures
      var next, timedOut := Advance(cfg, r, p), cfg.monitor && p.now - r.dlStart >= cfg.waitTimeout;
      && next.dlStart == r.dlStart
      && (p.reading != Complete(true) ==> next.clock == r.clock)
      && match p.reading
         case Gone => next.phase == Terminal(Missing)
         case Errored => next.phase == Terminal(DownloadErrored)
         case Unread => next.phase == if timedOut then Terminal(DownloadTimedOut) else r.phase
         case Unfinished => next.phase == if timedOut then Terminal(DownloadTimedOut) else Downloading
         case Complete(hasPath) =>
           if !hasPath then next.phase == Terminal(NoContentPath)
           else if p.probe.filesPresent then next.phase == Terminal(Imported)
           else if p.probe.unmatched then next.phase == Terminal(Unmatched)
           else if p.probe.handImport then next.phase == Terminal(Partial)
           else if Stalled(r, p.now) && !EarnsTime(cfg, r, p) then
             next.phase.Terminal? && GivenUpAs(p.probe, next.phase.outcome)
           else if !p.probe.attempted then next.phase == Terminal(AttemptFailed)
           else next.phase == Importing(p.probe.commandIssued)
  {
  }

  /** The label of a row given up: importing where a command runs, busy where Sonarr is, and else not ready. */
  predicate GivenUpAs(probe: Probe, outcome: Outcome) {
    && (outcome == StillImporting <==>
          probe.commandIssued || probe.deferral == Issued || probe.deferral == ImportInFlight)
    && (outcome == SonarrBusy <==> !probe.commandIssued && probe.deferral == Busy)
    && (outcome == NotReady <==> !probe.commandIssued && probe.deferral == NoDeferral)
  }

  /** Where a fast-lane reading leaves it: imported once it counts all of a known number of files, and else as it was, a
    * count above the last moving the anchor.
    */
  lemma RefreshEnds(r: Row, f: Progress)
    requires r.Active()
    ensures
      var next := Refresh(r, f);
      var counts := r.phase.Importing? && r.clock.Some? && f.determinate && f.total > 0;
      && next.dlStart == r.dlStart
      && next.phase == (if counts && f.done >= f.total then Terminal(Imported) else r.phase)
      && (!counts ==> next.clock == r.clock)
      && (counts ==>
            var c := r.clock.value;
            var lands := c.seen.Some? && f.done > c.seen.value;
            next.clock ==
              Some(c.(anchor := if lands then f.now else c.anchor,
                      seen := if c.seen.Some? && c.seen.value >= f.done then c.seen else Some(f.done))))
  {
  }
}
