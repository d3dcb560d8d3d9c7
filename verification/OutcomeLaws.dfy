/** Which label and which counter a record of a check ends with, and what each outcome and each heal does to the books,
  * told from what was polled.
  */
module OutcomeLaws {
  import opened Wrappers
  import opened WaitRows
  import opened ReadyClocks
  import opened ImportLedger
  import opened PassSpec
  import opened MonitorBound
  import opened TailSpec

  /** Where the graduation leaves a row the check's one cycle left active. */
  lemma GraduatesAs(r: Row)
    requires r.Active()
    ensures Retired(r).clock == r.clock && Retired(r).dlStart == r.dlStart
    ensures r.phase == Queued ==> Retired(r).phase == Terminal(NotChecked)
    ensures r.phase == Downloading ==> Retired(r).phase == Terminal(StillDownloading)
    ensures r.phase == Importing(true) ==> Retired(r).phase == Terminal(ImportInProgress)
    ensures r.phase == Importing(false) ==> Retired(r).phase == Terminal(AwaitingImport)
  {
  }

  lemma {:induction false} RetireRows(ps: Pass, n: nat)
    requires n <= |ps.entries|
    ensures forall i :: 0 <= i < |ps.entries| ==>
      RetireAll(ps, n).entries[i].row ==
        if i < n && ps.entries[i].row.Active() then Retired(ps.entries[i].row) else ps.entries[i].row
  {
    if n > 0 {
      RetireRows(ps, n - 1);
    }
  }

  /** A check polls each row once, refreshes it if it is still active, and graduates it if it still is. */
  lemma CheckedRow(cfg: Config, ps: Pass, polls: seq<PollInput>, bars: seq<ProgressInput>, i: nat)
    requires |ps.entries| <= |polls| && |ps.entries| <= |bars| && i < |ps.entries| && ps.entries[i].row.Active()
    ensures i < |Check(cfg, ps, polls, bars).entries|
    ensures
      var polled := Advance(cfg, ps.entries[i].row, polls[i].poll);
      var shown := if polled.Active() then Refresh(polled, bars[i].progress) else polled;
      Check(cfg, ps, polls, bars).entries[i].row == if shown.Active() then Retired(shown) else shown
  {
    var n := |ps.entries|;
    var cycled := Cycle(cfg, ps, polls, n);
    CycleRows(cfg, ps, polls, n);
    RefreshRows(cycled, bars, n);
    RetireRows(RefreshAll(cycled, bars, n), n);
  }

  /** The counter of an outcome that leaves its record stored: queued while nothing of it has come, errored when its
    * download failed, and else downloaded.
    */
  predicate CountsAs(outcome: Outcome, state: PendingState) {
    && (state == PendingQueued <==>
          outcome == StillDownloading || outcome == DownloadTimedOut || outcome == NotChecked)
    && (state == PendingErrored <==> outcome == DownloadErrored)
    && (state == PendingQueued || state == PendingErrored || state == PendingDownloaded)
  }

  lemma StateIs(outcome: Outcome)
    requires outcome != Imported && outcome != Missing
    ensures CountsAs(outcome, StateForOutcome(outcome))
  {
  }

  /** What the whole check leaves of row `i`: its one result under its key and outcome, and its state if its record was
    * carried over and stays.
    */
  lemma CheckLeaves(cfg: Config, ps: Pass, polls: seq<PollInput>, bars: seq<ProgressInput>, i: nat)
    requires Conserved(ps) && |ps.entries| <= |polls| && |ps.entries| <= |bars| && i < |ps.entries|
    ensures
      var end := Check(cfg, ps, polls, bars);
      && |end.entries| == |ps.entries| && end.entries[i].row.phase.Terminal?
      && var key, outcome := ps.entries[i].key, end.entries[i].row.phase.outcome;
      && ResultRow(key, outcome, ps.entries[i].carriedOver) in end.results
      && (ps.entries[i].carriedOver && outcome != Imported && outcome != Missing ==>
            key in end.books.states && CountsAs(outcome, end.books.states[key]))
  {
    var end := Check(cfg, ps, polls, bars);
    CheckEndsConserved(cfg, ps, polls, bars);
    assert StateFolded(end.entries[i], end.books);
    var outcome := end.entries[i].row.phase.outcome;
    if outcome != Imported && outcome != Missing {
      StateIs(outcome);
    }
    var r := ResultRow(ps.entries[i].key, outcome, ps.entries[i].carriedOver);
    RowIsOwed(end.entries, |end.entries|, i, r);
    assert multiset(end.results)[r] > 0;
    assert r in end.results;
  }

  lemma {:induction false} RowIsOwed(entries: seq<Entry>, n: nat, i: nat, r: ResultRow)
    requires i < n <= |entries| && !entries[i].row.Active()
    requires r == ResultRow(entries[i].key, entries[i].row.phase.outcome, entries[i].carriedOver)
    ensures OwedTo(entries, n)[r] > 0
  {
    assert OwedTo(entries, n)[r] == OwedTo(entries, n - 1)[r] + OwedBy(entries[n - 1])[r];
    if i < n - 1 {
      RowIsOwed(entries, n - 1, i, r);
    }
  }

  /** What an outcome does to its record: gone from store and run list once its torrent is missing or its import is
    * cleaned up; kept flagged, to be healed later, where a cleanup failed; and else left as it was, with its state
    * told if it was carried over.
    */
  lemma OutcomeResolves(b: Books, key: string, outcome: Outcome, carriedOver: bool, clean: bool)
    ensures
      var after := b.Resolve(key, outcome, carriedOver, clean);
      if outcome == Missing || (outcome == Imported && clean) then
        after.store == b.store - {key} && after.grabbed == b.grabbed - {key}
        && after.states == b.states && after.kept == b.kept
      else if outcome == Imported then
        after.store == b.store[key := true] && after.kept == b.kept + {key}
        && after.grabbed == b.grabbed && after.states == b.states
      else
        after.store == b.store && after.grabbed == b.grabbed && after.kept == b.kept
        && (if carriedOver then
              after.states.Keys == b.states.Keys + {key} && CountsAs(outcome, after.states[key])
              && forall k :: k in b.states && k != key ==> after.states[k] == b.states[k]
            else after.states == b.states)
  {
    if outcome != Imported && outcome != Missing {
      StateIs(outcome);
    }
  }

  /** A heal's evidence: the torrent is gone, or its files are in. */
  predicate HealShows(h: HealInput) {
    h.reading == Gone || (h.reading == Complete(true) && h.probe.filesPresent)
  }

  /** A heal's demotion: complete, not in, and imported anew. */
  predicate HealReissues(h: HealInput) {
    h.reading == Complete(true) && !h.probe.filesPresent && h.probe.deferral == Issued
  }

  /** No effect fires without evidence. Healing a flagged record lets it go exactly when its torrent is gone or its
    * files are in and the cleanup now ends clean, keeps it for the next run when it fails again, takes it back to
    * importing when the files had to be imported anew, and changes nothing otherwise.
    */
  lemma HealsOnEvidence(b: Books, h: HealInput)
    requires b.Flagged(h.key)
    ensures
      var after := HealOne(b, h);
      && (!HealShows(h) && !HealReissues(h) ==> after == b)
      && (HealShows(h) && h.clean ==>
            after == b.(store := b.store - {h.key}, grabbed := b.grabbed - {h.key}))
      && (HealShows(h) && !h.clean ==> after == b.(kept := b.kept + {h.key}))
      && (HealReissues(h) ==>
            after == b.(store := b.store[h.key := false], states := b.states[h.key := PendingDownloaded]))
  {
    assert b.store[h.key := true] == b.store;
  }

  /** The working set polls each waiting record afresh, as carried over. */
  lemma WorkingIs(order: seq<string>, start: real, i: nat)
    requires i < |order|
    ensures |Working(order, start)| == |order|
    ensures Working(order, start)[i].key == order[i] && Working(order, start)[i].carriedOver
    ensures Working(order, start)[i].row == Row(start, None, Queued)
  {
    assert Working(order, start)[i] == Entry(order[i], true, FreshRow(start));
  }

  /** Who the tail heals and what it counts: the flagged records not kept this run are healed, and a record neither
    * flagged nor grabbed this run counts as downloaded if that is its state, and as queued if that is or none is
    * known.
    */
  lemma TalliesAre(b: Books, k: string)
    ensures Owing(b, k) <==> k in b.store && b.store[k] && k !in b.kept
    ensures k in TallyQueued(b) <==>
      k in b.store && !b.store[k] && k !in b.grabbed && (k in b.states ==> b.states[k] == PendingQueued)
    ensures k in TallyDownloaded(b) <==>
      k in b.store && !b.store[k] && k !in b.grabbed && k in b.states && b.states[k] == PendingDownloaded
    ensures k in ImportedByStates(b) <==> k in b.states && b.states[k] == PendingImported
  {
  }

  /** A check counts as imported the carried-over records its rows ended so. */
  lemma CountedImportsAre(results: seq<ResultRow>, k: string)
    ensures k in ImportedByCheck(results) <==> ResultRow(k, Imported, true) in results
  {
  }
}
