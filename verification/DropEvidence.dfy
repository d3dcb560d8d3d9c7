/** On what evidence a pass lets go of a record: over a whole cycle, refresh, graduation or check, whatever the other
  * rows do meanwhile.
  */
module DropEvidence {
  import opened WaitRows
  import opened PassSpec
  import opened MonitorBound
  import opened MonitorRuns

  /** The torrent is gone, or its files verified and both cleanup effects ran. */
  predicate PollShows(input: PollInput) {
    input.poll.reading == Gone
    || (input.poll.reading == Complete(true) && input.poll.probe.filesPresent && input.clean)
  }

  /** A watched import's files are all in, and both cleanup effects ran. */
  predicate BarShows(r: Row, input: ProgressInput) {
    r.phase.Importing? && r.clock.Some? && input.progress.FilesPresent() && input.clean
  }

  predicate Stored(ps: Pass, i: nat)
    requires i < |ps.entries|
  {
    ps.entries[i].key in ps.books.store
  }

  /** A step on one row leaves another row and its record alone. */
  lemma MoveLeavesRow(ps: Pass, j: nat, next: Row, clean: bool, i: nat)
    requires DistinctKeys(ps.entries) && i < |ps.entries| && j < |ps.entries| && i != j && ps.entries[j].row.Active()
    ensures
      var after := Moved(ps, j, next, clean);
      after.entries[i] == ps.entries[i] && (Stored(after, i) <==> Stored(ps, i))
  {
    MoveSparesOthers(ps, j, next, clean, ps.entries[i].key);
  }

  /** A step on an active row drops its record exactly on MISSING, or on IMPORTED with neither cleanup effect failed. */
  lemma MoveDropsIff(ps: Pass, i: nat, next: Row, clean: bool)
    requires i < |ps.entries| && ps.entries[i].row.Active() && RecordStands(ps.entries[i], ps.books)
    ensures Stored(Moved(ps, i, next, clean), i) <==>
      !(next == next.Ended(Missing) || (next == next.Ended(Imported) && clean))
  {
  }

  lemma AdvanceDropsIff(cfg: Config, ps: Pass, j: nat, input: PollInput, i: nat, after: Pass)
    requires DistinctKeys(ps.entries) && i < |ps.entries| && RecordStands(ps.entries[i], ps.books)
    requires j < |ps.entries| && after == AdvanceAt(cfg, ps, j, input)
    ensures i < |after.entries|
    ensures
      var row := ps.entries[i].row;
      var moves := i == j && row.Active();
      && after.entries[i] == (if moves then ps.entries[i].(row := Advance(cfg, row, input.poll)) else ps.entries[i])
      && (Stored(after, i) <==> Stored(ps, i) && !(moves && PollShows(input)))
  {
    if ps.entries[j].row.Active() {
      var absorbed := ps.(books := Absorbed(ps.books, ps.entries[j].key, input.poll));
      var next := Advance(cfg, ps.entries[j].row, input.poll);
      if i == j {
        MoveDropsIff(absorbed, i, next, input.clean);
      } else {
        MoveLeavesRow(absorbed, j, next, input.clean, i);
      }
    }
  }

  /** What the polls of the first `n` rows made of row `i` and its record. */
  predicate PolledTo(cfg: Config, ps: Pass, inputs: seq<PollInput>, n: nat, i: nat, after: Pass)
    requires n <= |ps.entries| <= |inputs| && i < |ps.entries|
  {
    var row := ps.entries[i].row;
    && |after.entries| == |ps.entries|
    && after.entries[i] ==
         (if i < n && row.Active() then ps.entries[i].(row := Advance(cfg, row, inputs[i].poll)) else ps.entries[i])
    && (Stored(after, i) <==> Stored(ps, i) && !(i < n && row.Active() && PollShows(inputs[i])))
  }

  lemma CycleGoesOn(cfg: Config, ps: Pass, inputs: seq<PollInput>, n: nat, i: nat, mid: Pass, after: Pass)
    requires n < |ps.entries| <= |inputs| && i < |ps.entries|
    requires |mid.entries| == |ps.entries| && DistinctKeys(mid.entries) && RecordStands(mid.entries[i], mid.books)
    requires PolledTo(cfg, ps, inputs, n, i, mid) && after == AdvanceAt(cfg, mid, n, inputs[n])
    ensures PolledTo(cfg, ps, inputs, n + 1, i, after)
  {
    AdvanceDropsIff(cfg, mid, n, inputs[n], i, after);
  }

  lemma RowAfterCycle(cfg: Config, ps: Pass, inputs: seq<PollInput>, n: nat, i: nat, mid: Pass)
    requires Conserved(ps) && n <= |ps.entries| <= |inputs| && i < |ps.entries|
    requires mid == Cycle(cfg, ps, inputs, n)
    ensures |mid.entries| == |ps.entries| && DistinctKeys(mid.entries) && RecordStands(mid.entries[i], mid.books)
  {
    var conserved := CycleCarriesOn(cfg, ps, inputs, n);
  }

  lemma {:induction false} PolledSoFar(cfg: Config, ps: Pass, inputs: seq<PollInput>, n: nat, i: nat)
    returns (after: Pass)
    requires Conserved(ps) && n <= |ps.entries| <= |inputs| && i < |ps.entries|
    ensures after == Cycle(cfg, ps, inputs, n)
    ensures PolledTo(cfg, ps, inputs, n, i, after)
  {
    after := Cycle(cfg, ps, inputs, n);
    if n > 0 {
      CycleNext(cfg, ps, inputs, n);
      var mid := PolledSoFar(cfg, ps, inputs, n - 1, i);
      RowAfterCycle(cfg, ps, inputs, n - 1, i, mid);
      CycleGoesOn(cfg, ps, inputs, n - 1, i, mid, after);
    }
  }

  /** A cycle drops a record exactly on the evidence of its active row's own poll. */
  lemma CycleDropsIff(cfg: Config, ps: Pass, inputs: seq<PollInput>, n: nat, i: nat)
    requires Conserved(ps) && n <= |ps.entries| <= |inputs| && i < |ps.entries|
    ensures PolledTo(cfg, ps, inputs, n, i, Cycle(cfg, ps, inputs, n))
  {
    var after := PolledSoFar(cfg, ps, inputs, n, i);
  }

  lemma RefreshDropsIff(ps: Pass, j: nat, input: ProgressInput, i: nat, after: Pass)
    requires DistinctKeys(ps.entries) && i < |ps.entries| && RecordStands(ps.entries[i], ps.books)
    requires j < |ps.entries| && after == RefreshAt(ps, j, input)
    ensures i < |after.entries|
    ensures
      var row := ps.entries[i].row;
      var moves := i == j && row.Active();
      && after.entries[i] == (if moves then ps.entries[i].(row := Refresh(row, input.progress)) else ps.entries[i])
      && (Stored(after, i) <==> Stored(ps, i) && !(moves && BarShows(row, input)))
  {
    if ps.entries[j].row.Active() {
      var next := Refresh(ps.entries[j].row, input.progress);
      if i == j {
        MoveDropsIff(ps, i, next, input.clean);
      } else {
        MoveLeavesRow(ps, j, next, input.clean, i);
      }
    }
  }

  /** What `n` refreshes made of row `i` and its record. */
  predicate RefreshedTo(ps: Pass, inputs: seq<ProgressInput>, n: nat, i: nat, after: Pass)
    requires n <= |ps.entries| <= |inputs| && i < |ps.entries|
  {
    var row := ps.entries[i].row;
    && |after.entries| == |ps.entries|
    && after.entries[i] ==
         (if i < n && row.Active() then ps.entries[i].(row := Refresh(row, inputs[i].progress)) else ps.entries[i])
    && (Stored(after, i) <==> Stored(ps, i) && !(i < n && row.Active() && BarShows(row, inputs[i])))
  }

  lemma RefreshGoesOn(ps: Pass, inputs: seq<ProgressInput>, n: nat, i: nat, mid: Pass, after: Pass)
    requires n < |ps.entries| <= |inputs| && i < |ps.entries|
    requires |mid.entries| == |ps.entries| && DistinctKeys(mid.entries) && RecordStands(mid.entries[i], mid.books)
    requires RefreshedTo(ps, inputs, n, i, mid) && after == RefreshAt(mid, n, inputs[n])
    ensures RefreshedTo(ps, inputs, n + 1, i, after)
  {
    RefreshDropsIff(mid, n, inputs[n], i, after);
  }

  lemma RowAfterRefresh(ps: Pass, inputs: seq<ProgressInput>, n: nat, i: nat, mid: Pass)
    requires Conserved(ps) && n <= |ps.entries| <= |inputs| && i < |ps.entries|
    requires mid == RefreshAll(ps, inputs, n)
    ensures |mid.entries| == |ps.entries| && DistinctKeys(mid.entries) && RecordStands(mid.entries[i], mid.books)
  {
    RefreshConserves(ps, inputs, n);
  }

  lemma {:induction false} RefreshedSoFar(ps: Pass, inputs: seq<ProgressInput>, n: nat, i: nat)
    returns (after: Pass)
    requires Conserved(ps) && n <= |ps.entries| <= |inputs| && i < |ps.entries|
    ensures after == RefreshAll(ps, inputs, n)
    ensures RefreshedTo(ps, inputs, n, i, after)
  {
    after := ps;
    if n > 0 {
      var mid := RefreshedSoFar(ps, inputs, n - 1, i);
      RowAfterRefresh(ps, inputs, n - 1, i, mid);
      after := RefreshAt(mid, n - 1, inputs[n - 1]);
      RefreshGoesOn(ps, inputs, n - 1, i, mid, after);
    }
  }

  /** A refresh drops a record exactly on the evidence of its row's own bar. */
  lemma RefreshAllDropsIff(ps: Pass, inputs: seq<ProgressInput>, n: nat, i: nat)
    requires Conserved(ps) && n <= |ps.entries| <= |inputs| && i < |ps.entries|
    ensures RefreshedTo(ps, inputs, n, i, RefreshAll(ps, inputs, n))
  {
    var after := RefreshedSoFar(ps, inputs, n, i);
  }

  /** The record of row `i` stands where it stood. */
  predicate SameStanding(ps: Pass, after: Pass, i: nat) {
    i < |ps.entries| == |after.entries| && after.entries[i].key == ps.entries[i].key
      && (Stored(after, i) <==> Stored(ps, i))
  }

  lemma RetireKeeps(ps: Pass, mid: Pass, j: nat, i: nat, after: Pass)
    requires SameStanding(ps, mid, i) && j < |mid.entries| && after == RetireAt(mid, j)
    requires DistinctKeys(mid.entries) && RecordStands(mid.entries[i], mid.books)
    ensures SameStanding(ps, after, i)
  {
    if mid.entries[j].row.Active() {
      if i == j {
        MoveDropsIff(mid, i, Retired(mid.entries[i].row), false);
      } else {
        MoveLeavesRow(mid, j, Retired(mid.entries[j].row), false, i);
      }
    }
  }

  lemma {:induction false} RetireCarriesOn(ps: Pass, n: nat, i: nat) returns (after: Pass)
    requires Conserved(ps) && n <= |ps.entries| && i < |ps.entries|
    ensures after == RetireAll(ps, n)
    ensures Conserved(after) && SameStanding(ps, after, i)
  {
    after := ps;
    if n > 0 {
      var mid := RetireCarriesOn(ps, n - 1, i);
      after := RetireAt(mid, n - 1);
      RetireKeeps(ps, mid, n - 1, i, after);
      ThenRetire(mid, mid, n - 1, after);
    }
  }

  /** Graduating drops nothing. */
  lemma RetireDropsNothing(ps: Pass, n: nat, i: nat)
    requires Conserved(ps) && n <= |ps.entries| && i < |ps.entries|
    ensures SameStanding(ps, RetireAll(ps, n), i)
  {
    var after := RetireCarriesOn(ps, n, i);
  }

  /** The check lets go of a record exactly when its poll found the torrent gone or the files in and cleaned up, or its
    * bar, the poll having left the import running, found them so.
    */
  lemma CheckDropsIff(cfg: Config, ps: Pass, polls: seq<PollInput>, bars: seq<ProgressInput>, i: nat)
    requires Conserved(ps) && |ps.entries| <= |polls| && |ps.entries| <= |bars|
    requires i < |ps.entries| && ps.entries[i].row.Active()
    ensures |Check(cfg, ps, polls, bars).entries| == |ps.entries|
    ensures !Stored(Check(cfg, ps, polls, bars), i) <==>
            PollShows(polls[i]) || BarShows(Advance(cfg, ps.entries[i].row, polls[i].poll), bars[i])
  {
    var n := |ps.entries|;
    var polled := Cycle(cfg, ps, polls, n);
    assert RecordStands(ps.entries[i], ps.books);
    CycleDropsIff(cfg, ps, polls, n, i);
    CycleConserves(cfg, ps, polls, n);
    RefreshAllDropsIff(polled, bars, n, i);
    RefreshConserves(polled, bars, n);
    RetireDropsNothing(RefreshAll(polled, bars, n), n, i);
  }

  // A whole monitor run.

  /** One row and whether its record is still stored, followed through its own polls and bars alone. */
  datatype Life = Life(row: Row, kept: bool)

  function AfterPoll(cfg: Config, life: Life, input: PollInput): Life {
    if !life.row.Active() then life
    else Life(Advance(cfg, life.row, input.poll), life.kept && !PollShows(input))
  }

  function AfterBar(life: Life, input: ProgressInput): Life {
    if !life.row.Active() then life
    else Life(Refresh(life.row, input.progress), life.kept && !BarShows(life.row, input))
  }

  /** After the first `s` refreshes of a wait. */
  function AfterBars(life: Life, bars: seq<seq<ProgressInput>>, i: nat, s: nat): Life
    requires s <= |bars| && forall j :: 0 <= j < |bars| ==> i < |bars[j]|
  {
    if s == 0 then life else AfterBar(AfterBars(life, bars, i, s - 1), bars[s - 1][i])
  }

  /** After `c` cycles and their waits. */
  ghost function LifeAfter(cfg: Config, life: Life, rows: nat, polls: nat -> seq<PollInput>,
                           slices: nat -> seq<seq<ProgressInput>>, i: nat, c: nat): Life
    requires Sized(rows, polls, slices) && i < rows
  {
    if c == 0 then life
    else
      var before := LifeAfter(cfg, life, rows, polls, slices, i, c - 1);
      AfterBars(AfterPoll(cfg, before, polls(c - 1)[i]), slices(c - 1), i, |slices(c - 1)|)
  }

  /** Row `i` of the pass and its record stand as its life says. */
  predicate Lives(ps: Pass, i: nat, life: Life) {
    i < |ps.entries| && ps.entries[i].row == life.row && (Stored(ps, i) <==> life.kept)
  }

  lemma CycleLives(cfg: Config, ps: Pass, inputs: seq<PollInput>, i: nat, life: Life, after: Pass)
    requires Conserved(ps) && |ps.entries| <= |inputs| && Lives(ps, i, life)
    requires after == Cycle(cfg, ps, inputs, |ps.entries|)
    ensures Lives(after, i, AfterPoll(cfg, life, inputs[i]))
  {
    CycleDropsIff(cfg, ps, inputs, |ps.entries|, i);
  }

  lemma BarLives(ps: Pass, inputs: seq<ProgressInput>, i: nat, life: Life, after: Pass)
    requires Conserved(ps) && |ps.entries| <= |inputs| && Lives(ps, i, life)
    requires after == RefreshAll(ps, inputs, |ps.entries|)
    ensures Lives(after, i, AfterBar(life, inputs[i]))
  {
    RefreshAllDropsIff(ps, inputs, |ps.entries|, i);
  }

  lemma {:induction false} WaitLives(ps: Pass, bars: seq<seq<ProgressInput>>, i: nat, life: Life, s: nat)
    returns (after: Pass)
    requires Conserved(ps) && Lives(ps, i, life)
    requires s <= |bars| && forall j :: 0 <= j < |bars| ==> |bars[j]| >= |ps.entries|
    ensures after == Waited(ps, bars, s)
    ensures Lives(after, i, AfterBars(life, bars, i, s))
  {
    after := ps;
    if s > 0 {
      WaitConserves(ps, ps, bars, s - 1);
      var before := WaitLives(ps, bars, i, life, s - 1);
      after := RefreshAll(before, bars[s - 1], |ps.entries|);
      BarLives(before, bars[s - 1], i, AfterBars(life, bars, i, s - 1), after);
    }
  }

  /** Through any number of cycles and waits, each row moves, and its record stays or goes, by its own polls and bars
    * alone.
    */
  lemma {:induction false} RunLives(cfg: Config, ps: Pass, polls: nat -> seq<PollInput>,
                                    slices: nat -> seq<seq<ProgressInput>>, i: nat, life: Life, c: nat)
    returns (after: Pass)
    requires Conserved(ps) && Sized(|ps.entries|, polls, slices) && Lives(ps, i, life)
    ensures after == MonitorRun(cfg, ps, polls, slices, c)
    ensures Lives(after, i, LifeAfter(cfg, life, |ps.entries|, polls, slices, i, c))
  {
    after := ps;
    if c > 0 {
      RunConserves(cfg, ps, polls, slices, c - 1);
      var before := RunLives(cfg, ps, polls, slices, i, life, c - 1);
      var lived := LifeAfter(cfg, life, |ps.entries|, polls, slices, i, c - 1);
      var cycled := Cycle(cfg, before, polls(c - 1), |ps.entries|);
      CycleLives(cfg, before, polls(c - 1), i, lived, cycled);
      CycleConserves(cfg, before, polls(c - 1), |ps.entries|);
      after := WaitLives(cycled, slices(c - 1), i, AfterPoll(cfg, lived, polls(c - 1)[i]), |slices(c - 1)|);
    }
  }

  /** Refresh `s` of a wait found row `i`'s files all in and cleaned up. */
  predicate BarFull(bars: seq<seq<ProgressInput>>, i: nat, s: nat)
    requires s < |bars| && i < |bars[s]|
  {
    bars[s][i].progress.FilesPresent() && bars[s][i].clean
  }

  predicate SomeBarFull(bars: seq<seq<ProgressInput>>, i: nat, n: nat)
    requires n <= |bars| && forall j :: 0 <= j < |bars| ==> i < |bars[j]|
  {
    exists s :: 0 <= s < n && BarFull(bars, i, s)
  }

  /** A poll or a bar of row `i` showed, in the first `c` rounds, that its record could go. */
  ghost predicate Shown(rows: nat, polls: nat -> seq<PollInput>, slices: nat -> seq<seq<ProgressInput>>, i: nat, c: nat)
    requires Sized(rows, polls, slices) && i < rows
  {
    c > 0 &&
    (|| Shown(rows, polls, slices, i, c - 1)
     || PollShows(polls(c - 1)[i])
     || SomeBarFull(slices(c - 1), i, |slices(c - 1)|))
  }

  lemma {:induction false} BarsShow(life: Life, bars: seq<seq<ProgressInput>>, i: nat, s: nat)
    requires s <= |bars| && forall j :: 0 <= j < |bars| ==> i < |bars[j]|
    ensures life.kept && !AfterBars(life, bars, i, s).kept ==> SomeBarFull(bars, i, s)
  {
    if s > 0 {
      BarsShow(life, bars, i, s - 1);
      assert !AfterBars(life, bars, i, s).kept ==> !AfterBars(life, bars, i, s - 1).kept || BarFull(bars, i, s - 1);
    }
  }

  lemma {:induction false} LifeEndsOnEvidence(cfg: Config, life: Life, rows: nat, polls: nat -> seq<PollInput>,
                                              slices: nat -> seq<seq<ProgressInput>>, i: nat, c: nat)
    requires Sized(rows, polls, slices) && i < rows && life.kept
    ensures !LifeAfter(cfg, life, rows, polls, slices, i, c).kept ==> Shown(rows, polls, slices, i, c)
  {
    if c > 0 {
      LifeEndsOnEvidence(cfg, life, rows, polls, slices, i, c - 1);
      var before := LifeAfter(cfg, life, rows, polls, slices, i, c - 1);
      BarsShow(AfterPoll(cfg, before, polls(c - 1)[i]), slices(c - 1), i, |slices(c - 1)|);
    }
  }

  /** A record a monitor run let go of had a poll or a bar of its own row that showed it could. */
  lemma MonitorDropsOnEvidence(cfg: Config, ps: Pass, polls: nat -> seq<PollInput>,
                               slices: nat -> seq<seq<ProgressInput>>, i: nat, c: nat)
    requires Conserved(ps) && Sized(|ps.entries|, polls, slices) && i < |ps.entries| && Stored(ps, i)
    ensures !Stored(MonitorRun(cfg, ps, polls, slices, c), i) ==> Shown(|ps.entries|, polls, slices, i, c)
  {
    var life := Life(ps.entries[i].row, true);
    var after := RunLives(cfg, ps, polls, slices, i, life, c);
    LifeEndsOnEvidence(cfg, life, |ps.entries|, polls, slices, i, c);
  }
}
