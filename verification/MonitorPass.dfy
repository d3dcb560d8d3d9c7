/** The pass the run drives: `_MonitorRow` and `MonitorPass` as objects updated in place, each step proved to be
  * the step of `PassSpec`, and `ImportWaitManager.run_monitor`, proved to end.
  */
module MonitorPasses {
  import opened Wrappers
  import opened ReadyClocks
  import opened WaitRows
  import opened ImportLedger
  import opened PassSpec
  import opened MonitorBound
  import opened MonitorRuns
  import opened MonitorEnd
  import opened WaitMeasure

  class MonitorRow {
    const key: string
    const carriedOver: bool
    const dlStart: real
    var clock: ReadyClock?
    var phase: Phase

    constructor (key: string, carriedOver: bool, start: real)
      ensures Entry() == PassSpec.Entry(key, carriedOver, FreshRow(start)) && clock == null
    {
      this.key, this.carriedOver, this.dlStart := key, carriedOver, start;
      clock, phase := null, Queued;
    }

    function Row(): WaitRows.Row
      reads this, clock
    {
      WaitRows.Row(dlStart, if clock == null then None else Some(clock.State()), phase)
    }

    function Entry(): PassSpec.Entry
      reads this, clock
    {
      PassSpec.Entry(key, carriedOver, Row())
    }

    /** Everything `_advance` does to the row itself. */
    method Advance(cfg: Config, p: Poll)
      modifies this, clock
      ensures Row() == WaitRows.Advance(cfg, old(Row()), p)
      ensures clock == old(clock) || fresh(clock)
    {
      match p.reading {
        case Gone => phase := Terminal(Missing);
        case Errored => phase := Terminal(DownloadErrored);
        case Complete(hasPath) =>
          if !hasPath {
            phase := Terminal(NoContentPath);
          } else {
            DriveImport(cfg, p);
          }
        case _ =>
          if cfg.monitor && p.now - dlStart >= cfg.waitTimeout {
            phase := Terminal(DownloadTimedOut);
          } else if p.reading.Unfinished? {
            phase := Downloading;
          }
      }
    }

    method DriveImport(cfg: Config, p: Poll)
      requires p.reading == Complete(true)
      modifies this, clock
      ensures Row() == WaitRows.Advance(cfg, old(Row()), p)
      ensures clock == old(clock) || fresh(clock)
    {
      if clock == null {
        clock := new ReadyClock(cfg.readyTimeout, p.now);
      }
      var c := clock;
      c.MarkPoll(p.now);
      var atDeadline := p.now - c.anchor >= c.timeout;
      var landed := c.NoteProgress(p.probe.imported, p.probe.target, p.now);
      var earns := c.CanDefer(p.probe.deferral);
      var deferred := p.probe.deferral != NoDeferral && earns;
      if deferred && !landed {
        c.CreditDeferral(p.now, p.probe.deferral);
      }
      if p.probe.filesPresent {
        phase := Terminal(Imported);
      } else if p.probe.unmatched {
        phase := Terminal(Unmatched);
      } else if p.probe.handImport {
        phase := Terminal(Partial);
      } else if atDeadline && !landed && !deferred {
        phase := Terminal(ExhaustedOutcome(p.probe));
      } else if !p.probe.attempted {
        phase := Terminal(AttemptFailed);
      } else {
        phase := Importing(p.probe.commandIssued);
      }
    }

    /** One row of `_retire_active`. */
    method Retire()
      modifies this
      ensures Row() == Retired(old(Row())) && clock == old(clock)
    {
      match phase {
        case Terminal(_) =>
        case Importing(issued) => phase := Terminal(if issued then ImportInProgress else AwaitingImport);
        case Downloading => phase := Terminal(StillDownloading);
        case Queued => phase := Terminal(NotChecked);
      }
    }

    /** One row of `refresh_progress`. */
    method Refresh(f: Progress)
      modifies this, clock
      ensures Row() == WaitRows.Refresh(old(Row()), f)
      ensures clock == old(clock)
    {
      if !phase.Importing? || clock == null || !f.determinate || f.total <= 0 {
        return;
      }
      var _ := clock.NoteProgress(f.done, f.total, f.now);
      if f.FilesPresent() {
        phase := Terminal(Imported);
      }
    }
  }

  lemma CycleGoesOn(cfg: Config, ps: Pass, inputs: seq<PollInput>, n: nat, before: Pass, after: Pass)
    requires n < |ps.entries| <= |inputs| && before == Cycle(cfg, ps, inputs, n)
    requires after == AdvanceAt(cfg, before, n, inputs[n])
    ensures after == Cycle(cfg, ps, inputs, n + 1)
  {
  }

  lemma RefreshGoesOn(ps: Pass, inputs: seq<ProgressInput>, n: nat, before: Pass, after: Pass)
    requires n < |ps.entries| <= |inputs| && before == RefreshAll(ps, inputs, n)
    requires after == RefreshAt(before, n, inputs[n])
    ensures after == RefreshAll(ps, inputs, n + 1)
  {
  }

  class MonitorPass {
    const cfg: Config
    const ledger: Ledger
    const rows: seq<MonitorRow>
    var results: seq<ResultRow>

    constructor (cfg: Config, ledger: Ledger, rows: seq<MonitorRow>)
      ensures this.cfg == cfg && this.ledger == ledger && this.rows == rows && results == []
    {
      this.cfg, this.ledger, this.rows, this.results := cfg, ledger, rows, [];
    }

    /** The clocks the rows hold so far. */
    ghost function Clocks(): set<object>
      reads rows
    {
      set r: MonitorRow | r in rows && r.clock != null :: r.clock
    }

    /** No two rows are one object, and no two share a clock. */
    ghost predicate Separate()
      reads rows
    {
      forall i, j :: 0 <= i < j < |rows| ==>
        rows[i] != rows[j] && (rows[i].clock == null || rows[i].clock != rows[j].clock)
    }

    ghost function Entries(): seq<Entry>
      reads rows, Clocks()
    {
      seq(|rows|, i requires 0 <= i < |rows| reads rows, Clocks() => rows[i].Entry())
    }

    ghost function View(): Pass
      reads this, ledger, rows, Clocks()
    {
      Pass(Entries(), results, ledger.View())
    }

    /** Row `i` has just moved on from `was`: a terminal frame takes its effects, the books first, then its
      * result row.
      */
    method Settle(i: nat, clean: bool, ghost was: Pass)
      requires i < |rows| && Separate()
      requires |was.entries| == |rows| && was.entries[i].row.Active()
        && was.entries[i] == rows[i].Entry().(row := was.entries[i].row)
      requires View() == was.(entries := was.entries[i := rows[i].Entry()])
      modifies this, ledger
      ensures View() == Moved(was, i, rows[i].Row(), clean)
    {
      var row := rows[i];
      if row.phase.Terminal? {
        ledger.Resolve(row.key, row.phase.outcome, row.carriedOver, clean);
        results := results + [ResultRow(row.key, row.phase.outcome, row.carriedOver)];
      }
    }

    /** Saves the files a poll placed. */
    method Absorb(key: string, p: Poll)
      modifies ledger
      ensures View() == old(View()).(books := Absorbed(old(View()).books, key, p))
    {
      if p.reading == Complete(true) && p.probe.placed {
        ledger.Save(key, false);
      }
    }

    /** `_advance` on row `i`, skipping a frozen one. */
    method Advance(i: nat, input: PollInput)
      requires i < |rows| && Separate()
      modifies this, ledger, rows[i], rows[i].clock
      ensures Separate() && forall k :: 0 <= k < |rows| ==> rows[k].clock == old(rows[k].clock) || fresh(rows[k].clock)
      ensures View() == AdvanceAt(cfg, old(View()), i, input)
    {
      var row := rows[i];
      ghost var start := View();
      assert start.entries[i] == row.Entry();
      if !row.Row().Active() {
        return;
      }
      Absorb(row.key, input.poll);
      ghost var was := start.(books := Absorbed(start.books, row.key, input.poll));
      row.Advance(cfg, input.poll);
      assert Entries() == was.entries[i := row.Entry()];
      Settle(i, input.clean, was);
    }

    method Refresh(i: nat, input: ProgressInput)
      requires i < |rows| && Separate()
      modifies this, ledger, rows[i], rows[i].clock
      ensures Separate() && forall k :: 0 <= k < |rows| ==> rows[k].clock == old(rows[k].clock)
      ensures View() == RefreshAt(old(View()), i, input)
    {
      var row := rows[i];
      if !row.Row().Active() {
        return;
      }
      ghost var was := View();
      row.Refresh(input.progress);
      assert Entries() == was.entries[i := row.Entry()];
      Settle(i, input.clean, was);
    }

    method Retire(i: nat)
      requires i < |rows| && Separate()
      modifies this, ledger, rows[i]
      ensures Separate() && forall k :: 0 <= k < |rows| ==> rows[k].clock == old(rows[k].clock)
      ensures View() == RetireAt(old(View()), i)
    {
      var row := rows[i];
      if !row.Row().Active() {
        return;
      }
      ghost var was := View();
      row.Retire();
      assert Entries() == was.entries[i := row.Entry()];
      Settle(i, false, was);
    }

    method RunCycle(inputs: seq<PollInput>)
      requires |inputs| >= |rows| && Separate()
      modifies this, ledger, rows, Clocks()
      ensures Separate() && forall k :: 0 <= k < |rows| ==> rows[k].clock == old(rows[k].clock) || fresh(rows[k].clock)
      ensures View() == Cycle(cfg, old(View()), inputs, |rows|)
    {
      ghost var start, now := View(), View();
      for i := 0 to |rows|
        invariant Separate()
        invariant forall k :: 0 <= k < |rows| ==> rows[k].clock == old(rows[k].clock) || fresh(rows[k].clock)
        invariant now == View()
        invariant now == Cycle(cfg, start, inputs, i)
      {
        assert rows[i].clock != null ==> rows[i].clock in Clocks();
        var input := inputs[i];
        ghost var next := AdvanceAt(cfg, now, i, input);
        CycleGoesOn(cfg, start, inputs, i, now, next);
        Advance(i, input);
        now := next;
      }
    }

    method RefreshProgress(inputs: seq<ProgressInput>)
      requires |inputs| >= |rows| && Separate()
      modifies this, ledger, rows, Clocks()
      ensures Separate() && forall k :: 0 <= k < |rows| ==> rows[k].clock == old(rows[k].clock)
      ensures View() == RefreshAll(old(View()), inputs, |rows|)
    {
      ghost var start, now := View(), View();
      for i := 0 to |rows|
        invariant Separate()
        invariant forall k :: 0 <= k < |rows| ==> rows[k].clock == old(rows[k].clock)
        invariant now == View()
        invariant now == RefreshAll(start, inputs, i)
      {
        assert rows[i].clock != null ==> rows[i].clock in Clocks();
        ghost var next := RefreshAt(now, i, inputs[i]);
        RefreshGoesOn(start, inputs, i, now, next);
        Refresh(i, inputs[i]);
        now := next;
      }
    }

    method RetireActive()
      requires Separate()
      modifies this, ledger, rows
      ensures Separate() && forall k :: 0 <= k < |rows| ==> rows[k].clock == old(rows[k].clock)
      ensures View() == RetireAll(old(View()), |rows|)
    {
      for i := 0 to |rows|
        invariant Separate()
        invariant forall k :: 0 <= k < |rows| ==> rows[k].clock == old(rows[k].clock)
        invariant View() == RetireAll(old(View()), i)
      {
        Retire(i);
      }
    }

    /** The check pass's whole cycle. */
    method RunCheck(polls: seq<PollInput>, bars: seq<ProgressInput>)
      requires |polls| >= |rows| && |bars| >= |rows| && Separate()
      modifies this, ledger, rows, Clocks()
      ensures Separate()
      ensures View() == Check(cfg, old(View()), polls, bars)
    {
      RunCycle(polls);
      RefreshProgress(bars);
      RetireActive();
    }

    /** `active_count` is not zero. */
    predicate Busy()
      reads this, ledger, rows, Clocks()
      ensures Busy() <==> SomeActive(View())
    {
      assert forall i :: 0 <= i < |rows| ==> View().entries[i].row == rows[i].Row();
      exists i :: 0 <= i < |rows| && rows[i].Row().Active()
    }

    /** The fast-lane refreshes of one wait, given up at the first that finds no row active. */
    method ProgressWait(bars: seq<seq<ProgressInput>>) returns (ghost s: nat)
      requires Separate() && forall j :: 0 <= j < |bars| ==> |bars[j]| >= |rows|
      modifies this, ledger, rows, Clocks()
      ensures Separate() && forall k :: 0 <= k < |rows| ==> rows[k].clock == old(rows[k].clock)
      ensures s <= |bars| && View() == Waited(old(View()), bars, s)
      ensures BusyUntil(old(View()), bars, s) && (s < |bars| ==> !SomeActive(View()))
    {
      var k := 0;
      ghost var start, now := View(), View();
      while k < |bars| && Busy()
        invariant k <= |bars| && Separate()
        invariant forall j :: 0 <= j < |rows| ==> rows[j].clock == old(rows[j].clock)
        invariant now == View()
        invariant now == Waited(start, bars, k) && BusyUntil(start, bars, k)
      {
        ghost var before := now;
        RefreshProgress(bars[k]);
        now := View();
        WaitGoesOn(start, bars, k, before, now);
        k := k + 1;
      }
      s := k;
    }

    /** One round of the loop: a heavy-poll cycle, then the wait. */
    method MonitorRound(polls: seq<PollInput>, bars: seq<seq<ProgressInput>>)
      requires Separate() && |polls| >= |rows| && forall j :: 0 <= j < |bars| ==> |bars[j]| >= |rows|
      modifies this, ledger, rows, Clocks()
      ensures Separate() && forall k :: 0 <= k < |rows| ==> rows[k].clock == old(rows[k].clock) || fresh(rows[k].clock)
      ensures View() == Round(cfg, old(View()), polls, bars)
    {
      RunCycle(polls);
      ghost var cycled := View();
      ghost var s := ProgressWait(bars);
      if s < |bars| {
        IdleWaits(cycled, bars, s, |bars|);
      }
    }

    /** The monitor's loop: cycles and waits until no row is active, where a run with one is short of some bound. */
    method RunToIdle(ghost bound: int, polls: nat -> seq<PollInput>, slices: nat -> seq<seq<ProgressInput>>)
      returns (ghost cycles: nat)
      requires Separate() && Sized(|rows|, polls, slices)
      requires forall c: nat :: SomeActive(MonitorRun(cfg, View(), polls, slices, c)) ==> c < bound
      modifies this, ledger, rows, Clocks()
      ensures View() == MonitorRun(cfg, old(View()), polls, slices, cycles) && !SomeActive(View())
    {
      var c := 0;
      ghost var start, now := View(), View();
      while Busy()
        invariant Separate()
        invariant forall k :: 0 <= k < |rows| ==> rows[k].clock == old(rows[k].clock) || fresh(rows[k].clock)
        invariant now == View()
        invariant now == MonitorRun(cfg, start, polls, slices, c)
        decreases bound - c
      {
        ghost var next := Round(cfg, now, polls(c), slices(c));
        RunGoesOn(cfg, start, polls, slices, c, now, next);
        MonitorRound(polls(c), slices(c));
        now := next;
        c := c + 1;
      }
      cycles := c;
    }

    /** `run_monitor`: cycles and waits until no row is active. Whatever qBittorrent and Sonarr answer, and however far
      * apart the polls come, it ends, with a result for each row.
      */
    method RunMonitor(ghost pace: Pace, polls: nat -> seq<PollInput>, slices: nat -> seq<seq<ProgressInput>>)
      returns (ghost cycles: nat)
      requires Separate() && Starting(cfg, pace, View(), polls, slices)
      modifies this, ledger, rows, Clocks()
      ensures View() == MonitorRun(cfg, old(View()), polls, slices, cycles) && Finished(old(View()), View())
    {
      ghost var start := View();
      BusyRunsAreEarly(cfg, pace, start, polls, slices);
      cycles := RunToIdle(CycleBound(cfg, pace), polls, slices);
      IdleRunIsFinished(cfg, start, polls, slices, cycles);
    }
  }
}
