/** One row of an end-of-run pass: the per-torrent state machine `MonitorPass._advance`, the fast-lane refresh
  * `MonitorPass.refresh_progress` and the check pass's graduation `_retire_active` (import_wait.py).
  */
module WaitRows {
  import opened Wrappers
  import opened ReadyClocks

  datatype Outcome =
    | Imported | Missing | DownloadErrored | DownloadTimedOut | NoContentPath
    | StillImporting | SonarrBusy | NotReady | Unmatched | Partial | AttemptFailed
    | NotChecked | ImportInProgress | AwaitingImport | StillDownloading

  datatype Phase = Queued | Downloading | Importing(commandIssued: bool) | Terminal(outcome: Outcome)

  /** One qBittorrent poll; `Unread` is a poll that could not be observed. */
  datatype Reading = Unread | Unfinished | Gone | Errored | Complete(hasPath: bool)

  /** One import attempt's answer. `placed` says whether it placed files for the record to persist. */
  datatype Probe = Probe(
    filesPresent: bool,
    commandIssued: bool,
    attempted: bool,
    imported: int,
    target: int,
    deferral: Deferral,
    unmatched: bool,
    handImport: bool,
    placed: bool)

  datatype Poll = Poll(now: real, reading: Reading, probe: Probe)

  /** One cheap files-landed count. */
  datatype Progress = Progress(now: real, done: int, total: int, determinate: bool) {
    predicate FilesPresent() {
      determinate && 0 < total <= done
    }
  }

  datatype Config = Config(monitor: bool, waitTimeout: real, readyTimeout: real)

  datatype Row = Row(dlStart: real, clock: Option<ClockState>, phase: Phase) {
    predicate Active() {
      !phase.Terminal?
    }

    function Ended(outcome: Outcome): Row {
      this.(phase := Terminal(outcome))
    }
  }

  function FreshRow(start: real): Row {
    Row(start, None, Queued)
  }

  function ExhaustedOutcome(probe: Probe): Outcome {
    if probe.commandIssued || probe.deferral == Issued || probe.deferral == ImportInFlight then StillImporting
    else if probe.deferral == Busy then SonarrBusy
    else NotReady
  }

  predicate Exhausted(outcome: Outcome) {
    outcome == StillImporting || outcome == SonarrBusy || outcome == NotReady
  }

  /** The clock as a COMPLETE poll finds it: the row's own, or a new one anchored at this poll. */
  function PolledClock(cfg: Config, r: Row, now: real): ClockState {
    (if r.clock.Some? then r.clock.value else NewClock(cfg.readyTimeout, now)).MarkPoll(now)
  }

  /** Whether the attempt waited on Sonarr's work and still earns credit. */
  predicate Deferred(c: ClockState, probe: Probe) {
    probe.deferral != NoDeferral &&
    c.NoteProgress(probe.imported, probe.target, 0.0).CanDefer(probe.deferral)
  }

  /** A polled clock after the attempt's progress and deferral are noted. */
  function NotedClock(c: ClockState, probe: Probe, now: real): ClockState {
    var noted := c.NoteProgress(probe.imported, probe.target, now);
    if Deferred(c, probe) && !c.Lands(probe.imported, probe.target) then
      noted.CreditDeferral(now, probe.deferral)
    else
      noted
  }

  function ImportPhase(c: ClockState, probe: Probe, now: real): Phase {
    if probe.filesPresent then Terminal(Imported)
    else if probe.unmatched then Terminal(Unmatched)
    else if probe.handImport then Terminal(Partial)
    else if c.AtDeadline(now) && !c.Lands(probe.imported, probe.target) && !Deferred(c, probe) then
      Terminal(ExhaustedOutcome(probe))
    else if !probe.attempted then Terminal(AttemptFailed)
    else Importing(probe.commandIssued)
  }

  /** One heavy poll of an active row. */
  function Advance(cfg: Config, r: Row, p: Poll): Row {
    match p.reading
    case Gone => r.Ended(Missing)
    case Errored => r.Ended(DownloadErrored)
    case Complete(hasPath) =>
      if !hasPath then
        r.Ended(NoContentPath)
      else
        var c := PolledClock(cfg, r, p.now);
        r.(clock := Some(NotedClock(c, p.probe, p.now)), phase := ImportPhase(c, p.probe, p.now))
    case _ =>
      if cfg.monitor && p.now - r.dlStart >= cfg.waitTimeout then r.Ended(DownloadTimedOut)
      else if p.reading.Unread? then r
      else r.(phase := Downloading)
  }

  /** One fast-lane reading: only an importing row with a determinate total moves. */
  function Refresh(r: Row, f: Progress): Row {
    if !r.phase.Importing? || r.clock.None? || !f.determinate || f.total <= 0 then
      r
    else
      var noted := r.(clock := Some(r.clock.value.NoteProgress(f.done, f.total, f.now)));
      if f.FilesPresent() then noted.Ended(Imported) else noted
  }

  /** The check pass's truthful label for a row its one cycle left active. */
  function Retired(r: Row): Row {
    match r.phase
    case Terminal(_) => r
    case Importing(issued) => r.Ended(if issued then ImportInProgress else AwaitingImport)
    case Downloading => r.Ended(StillDownloading)
    case Queued => r.Ended(NotChecked)
  }
}
