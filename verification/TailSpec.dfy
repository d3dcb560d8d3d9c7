/** The deferred finalize tail as functions on the books: heal, check, tally (`RunLoop._finalize_run`,
  * `PostImportCleanup.heal_flagged`, `ImportWaitManager.check_once` and `tally_carried_over_into_stats`), and
  * the proof that it counts no record twice.
  */
module TailSpec {
  import opened ReadyClocks
  import opened WaitRows
  import opened ImportLedger
  import opened PassSpec

  /** What healing one flagged record observes. */
  datatype HealInput = HealInput(key: string, reading: Reading, probe: Probe, clean: bool)

  /** `_heal_one`: effects fire only on fresh evidence or a MISSING torrent; a fresh re-import demotes the record. */
  function HealOne(b: Books, h: HealInput): Books {
    if h.reading.Gone? then b.Retire(h.key, h.clean)
    else if h.reading != Complete(true) then b
    else
      var absorbed := if h.probe.placed then b.Save(h.key, true) else b;
      if h.probe.filesPresent then absorbed.Retire(h.key, h.clean)
      else if h.probe.deferral == Issued then absorbed.Save(h.key, false).Fold(h.key, PendingDownloaded)
      else absorbed
  }

  function HealAll(b: Books, heals: seq<HealInput>): Books {
    if heals == [] then b else HealOne(HealAll(b, heals[..|heals| - 1]), heals[|heals| - 1])
  }

  /** The flagged records this run did not itself keep. */
  predicate Owing(b: Books, key: string) {
    b.Flagged(key) && key !in b.kept
  }

  /** `heals` visits each owing record once. */
  ghost predicate HealsOwing(b: Books, heals: seq<HealInput>) {
    && (forall i, j :: 0 <= i < j < |heals| ==> heals[i].key != heals[j].key)
    && (forall i :: 0 <= i < |heals| ==> Owing(b, heals[i].key))
    && (forall k :: Owing(b, k) ==> exists i :: 0 <= i < |heals| && heals[i].key == k)
  }

  /** `order` lists each carried-over record still to import once. */
  ghost predicate ListsWaiting(b: Books, order: seq<string>) {
    && (forall i, j :: 0 <= i < j < |order| ==> order[i] != order[j])
    && (forall k :: k in order <==> b.Waiting(k))
  }

  function Working(order: seq<string>, start: real): seq<Entry> {
    seq(|order|, i requires 0 <= i < |order| => Entry(order[i], true, FreshRow(start)))
  }

  /** The working set is a conserved pass about to start. */
  lemma WorkingIsConserved(b: Books, order: seq<string>, start: real)
    requires ListsWaiting(b, order)
    ensures Conserved(Pass(Working(order, start), [], b))
  {
    NothingOwed(order, start, |order|);
    forall i | 0 <= i < |order| ensures RecordStands(Working(order, start)[i], b) {
      assert order[i] in order;
    }
  }

  lemma {:induction false} NothingOwed(order: seq<string>, start: real, n: nat)
    requires n <= |order|
    ensures OwedTo(Working(order, start), n) == multiset{}
  {
    if n > 0 {
      NothingOwed(order, start, n - 1);
      assert Working(order, start)[n - 1] == Entry(order[n - 1], true, FreshRow(start));
    }
  }

  // The four counters a record can add to.

  function ImportedByCheck(results: seq<ResultRow>): set<string> {
    set r <- results | r.carriedOver && r.outcome == Imported :: r.key
  }

  function ImportedByStates(b: Books): set<string> {
    set k <- b.states.Keys | b.states[k] == PendingImported
  }

  function TallyState(b: Books, k: string): PendingState {
    if k in b.states then b.states[k] else PendingQueued
  }

  function TallyQueued(b: Books): set<string> {
    set k <- b.store.Keys | b.Waiting(k) && TallyState(b, k) == PendingQueued
  }

  function TallyDownloaded(b: Books): set<string> {
    set k <- b.store.Keys | b.Waiting(k) && TallyState(b, k) == PendingDownloaded
  }

  /** No record still to import has already been counted as imported. */
  ghost predicate NoneObservedImported(b: Books) {
    forall k :: b.Waiting(k) ==> TallyState(b, k) != PendingImported
  }

  lemma OneHealKeepsTheRest(b: Books, h: HealInput, k: string, after: Books)
    requires h.key != k && after == HealOne(b, h)
    ensures SameFor(k, b, after)
  {
  }

  lemma {:induction false} HealKeepsTheRest(b: Books, heals: seq<HealInput>, k: string)
    requires forall i :: 0 <= i < |heals| ==> heals[i].key != k
    ensures SameFor(k, b, HealAll(b, heals))
  {
    if heals != [] {
      HealKeepsTheRest(b, heals[..|heals| - 1], k);
      OneHealKeepsTheRest(HealAll(b, heals[..|heals| - 1]), heals[|heals| - 1], k, HealAll(b, heals));
    }
  }

  /** A heal never leaves a record to import that was counted as imported. */
  lemma {:induction false} HealKeepsNoneObserved(b: Books, heals: seq<HealInput>)
    requires NoneObservedImported(b) && forall i :: 0 <= i < |heals| ==> b.Flagged(heals[i].key)
    requires forall i, j :: 0 <= i < j < |heals| ==> heals[i].key != heals[j].key
    ensures NoneObservedImported(HealAll(b, heals))
  {
    if heals != [] {
      var n := |heals| - 1;
      HealKeepsNoneObserved(b, heals[..n]);
      HealKeepsTheRest(b, heals[..n], heals[n].key);
      OneHealKeepsNoneObserved(HealAll(b, heals[..n]), heals[n]);
    }
  }

  lemma OneHealKeepsNoneObserved(b: Books, h: HealInput)
    requires NoneObservedImported(b) && b.Flagged(h.key)
    ensures NoneObservedImported(HealOne(b, h))
  {
    var after := HealOne(b, h);
    forall k ensures after.Waiting(k) ==> TallyState(after, k) != PendingImported {
      assert b.Waiting(k) ==> TallyState(b, k) != PendingImported;
    }
  }

  lemma {:induction false} OwedComesFromARow(entries: seq<Entry>, n: nat, r: ResultRow)
    requires n <= |entries| && r in OwedTo(entries, n)
    ensures exists i :: 0 <= i < n && !entries[i].row.Active() && ResultOf(entries[i]) == r
  {
    if entries[n - 1].row.Active() || ResultOf(entries[n - 1]) != r {
      OwedComesFromARow(entries, n - 1, r);
    }
  }

  lemma {:induction false} OwedOnce(entries: seq<Entry>, n: nat, r: ResultRow)
    requires n <= |entries| && DistinctKeys(entries)
    ensures OwedTo(entries, n)[r] <= 1
  {
    if n > 0 {
      OwedOnce(entries, n - 1, r);
      if !entries[n - 1].row.Active() && ResultOf(entries[n - 1]) == r && r in OwedTo(entries, n - 1) {
        OwedComesFromARow(entries, n - 1, r);
      }
    }
  }

  lemma TwoOccurrences(results: seq<ResultRow>, i: nat, j: nat)
    requires i < j < |results| && results[i] == results[j]
    ensures multiset(results)[results[i]] >= 2
  {
    assert results == results[..j] + [results[j]] + results[j + 1..];
    assert results[i] == results[..j][i];
  }

  /** A conserved pass has one result row per key. */
  lemma ResultKeysDiffer(ps: Pass, i: nat, j: nat)
    requires Conserved(ps) && i < j < |ps.results|
    ensures ps.results[i].key != ps.results[j].key
  {
    if ps.results[i].key == ps.results[j].key {
      assert ps.results[i] in multiset(ps.results) && ps.results[j] in multiset(ps.results);
      OwedComesFromARow(ps.entries, |ps.entries|, ps.results[i]);
      OwedComesFromARow(ps.entries, |ps.entries|, ps.results[j]);
      OwedOnce(ps.entries, |ps.entries|, ps.results[i]);
      TwoOccurrences(ps.results, i, j);
    }
  }

  /** A key the check counted as imported is a row of the pass that ended IMPORTED. */
  lemma CountedKeyIsAnImportedRow(ps: Pass, k: string)
    requires Conserved(ps) && k in ImportedByCheck(ps.results)
    ensures exists i :: 0 <= i < |ps.entries| && ps.entries[i].key == k && ps.entries[i].row.phase == Terminal(Imported)
  {
    var r :| r in ps.results && r.key == k && r.outcome == Imported;
    assert r in multiset(ps.results);
    OwedComesFromARow(ps.entries, |ps.entries|, r);
  }

  /** Heal, then check: the tail's pass at its end. */
  function CheckedTail(cfg: Config, b: Books, heals: seq<HealInput>, order: seq<string>, start: real,
                       polls: seq<PollInput>, bars: seq<ProgressInput>): Pass
    requires |order| <= |polls| && |order| <= |bars|
  {
    Check(cfg, Pass(Working(order, start), [], HealAll(b, heals)), polls, bars)
  }

  /** A row the check left carries no IMPORTED state, whether or not the check polled it. */
  lemma StatesAfterCheck(before: Pass, end: Pass, k: string)
    requires Conserved(end) && Continues(before, end)
    requires NoneObservedImported(before.books)
    requires forall i :: 0 <= i < |before.entries| ==>
      before.entries[i].carriedOver && before.books.Waiting(before.entries[i].key)
    requires forall j :: before.books.Waiting(j) ==> j in KeysOf(before.entries)
    requires forall i :: 0 <= i < |end.entries| ==> !end.entries[i].row.Active()
    ensures end.books.Waiting(k) ==> TallyState(end.books, k) != PendingImported
    ensures end.books.Waiting(k) ==> k !in ImportedByCheck(end.results)
  {
    if end.books.Waiting(k) {
      if k in KeysOf(end.entries) {
        var i :| 0 <= i < |end.entries| && end.entries[i].key == k;
        assert RecordStands(end.entries[i], end.books) && StateFolded(end.entries[i], end.books);
        if k in ImportedByCheck(end.results) {
          CountedKeyIsAnImportedRow(end, k);
        }
      }
    }
  }

  /** Every state that differs from before is the fold of some outcome, never an import. */
  ghost predicate StatesFromRows(before: Pass, end: Pass) {
    forall k :: k in end.books.states && end.books.states[k] == PendingImported ==>
      k in before.books.states && before.books.states[k] == PendingImported
  }

  lemma MoveFoldsNoImport(ps: Pass, i: nat, next: Row, clean: bool)
    requires i < |ps.entries| && ps.entries[i].row.Active()
    ensures StatesFromRows(ps, Moved(ps, i, next, clean))
  {
  }

  lemma {:induction false} CycleFoldsNoImport(cfg: Config, ps: Pass, inputs: seq<PollInput>, n: nat)
    requires n <= |ps.entries| <= |inputs|
    ensures StatesFromRows(ps, Cycle(cfg, ps, inputs, n))
  {
    if n > 0 {
      CycleFoldsNoImport(cfg, ps, inputs, n - 1);
      var mid := Cycle(cfg, ps, inputs, n - 1);
      var e := mid.entries[n - 1];
      if e.row.Active() {
        var absorbed := mid.(books := Absorbed(mid.books, e.key, inputs[n - 1].poll));
        MoveFoldsNoImport(absorbed, n - 1, Advance(cfg, e.row, inputs[n - 1].poll), inputs[n - 1].clean);
      }
    }
  }

  lemma {:induction false} RefreshFoldsNoImport(ps: Pass, inputs: seq<ProgressInput>, n: nat)
    requires n <= |ps.entries| <= |inputs|
    ensures StatesFromRows(ps, RefreshAll(ps, inputs, n))
  {
    if n > 0 {
      RefreshFoldsNoImport(ps, inputs, n - 1);
      var mid := RefreshAll(ps, inputs, n - 1);
      if mid.entries[n - 1].row.Active() {
        MoveFoldsNoImport(mid, n - 1, Refresh(mid.entries[n - 1].row, inputs[n - 1].progress), inputs[n - 1].clean);
      }
    }
  }

  lemma {:induction false} RetireFoldsNoImport(ps: Pass, n: nat)
    requires n <= |ps.entries|
    ensures StatesFromRows(ps, RetireAll(ps, n))
  {
    if n > 0 {
      RetireFoldsNoImport(ps, n - 1);
      var mid := RetireAll(ps, n - 1);
      if mid.entries[n - 1].row.Active() {
        MoveFoldsNoImport(mid, n - 1, Retired(mid.entries[n - 1].row), false);
      }
    }
  }

  lemma CheckFoldsNoImport(cfg: Config, ps: Pass, polls: seq<PollInput>, bars: seq<ProgressInput>)
    requires |ps.entries| <= |polls| && |ps.entries| <= |bars|
    ensures StatesFromRows(ps, Check(cfg, ps, polls, bars))
  {
    var n := |ps.entries|;
    CycleFoldsNoImport(cfg, ps, polls, n);
    RefreshFoldsNoImport(Cycle(cfg, ps, polls, n), bars, n);
    RetireFoldsNoImport(RefreshAll(Cycle(cfg, ps, polls, n), bars, n), n);
  }

  /** What the tail's pass is when the check ends. */
  lemma TailEnds(cfg: Config, before: Pass, polls: seq<PollInput>, bars: seq<ProgressInput>, end: Pass)
    requires Conserved(before) && |before.entries| <= |polls| && |before.entries| <= |bars|
    requires NoneObservedImported(before.books) && end == Check(cfg, before, polls, bars)
    requires forall i :: 0 <= i < |before.entries| ==>
      before.entries[i].carriedOver && before.books.Waiting(before.entries[i].key)
    requires forall j :: before.books.Waiting(j) ==> j in KeysOf(before.entries)
    ensures Conserved(end) && StatesFromRows(before, end)
    ensures forall k :: end.books.Waiting(k) ==>
      TallyState(end.books, k) != PendingImported && k !in ImportedByCheck(end.results)
    ensures forall k :: k in ImportedByCheck(end.results) ==> k !in ImportedByStates(end.books)
  {
    CheckEndsConserved(cfg, before, polls, bars);
    CheckFoldsNoImport(cfg, before, polls, bars);
    forall k
      ensures end.books.Waiting(k) ==> TallyState(end.books, k) != PendingImported && k !in ImportedByCheck(end.results)
    {
      StatesAfterCheck(before, end, k);
    }
    forall k | k in ImportedByCheck(end.results) ensures k !in ImportedByStates(end.books) {
      CountedKeyIsAnImportedRow(end, k);
      var i :| 0 <= i < |end.entries| && end.entries[i].key == k;
      assert before.entries[i].key == k;
      assert before.books.Waiting(k);
    }
  }

  /** No record adds to two of the tail's counters, and a flagged one adds to neither queued nor downloaded. */
  lemma CountedAtMostOnce(cfg: Config, b: Books, heals: seq<HealInput>, order: seq<string>, start: real,
                          polls: seq<PollInput>, bars: seq<ProgressInput>)
    requires NoneObservedImported(b) && HealsOwing(b, heals)
    requires ListsWaiting(HealAll(b, heals), order) && |order| <= |polls| && |order| <= |bars|
    ensures
      var end := CheckedTail(cfg, b, heals, order, start, polls, bars);
      && ImportedByCheck(end.results) !! ImportedByStates(end.books)
      && ImportedByCheck(end.results) !! TallyQueued(end.books)
      && ImportedByCheck(end.results) !! TallyDownloaded(end.books)
      && ImportedByStates(end.books) !! TallyQueued(end.books)
      && ImportedByStates(end.books) !! TallyDownloaded(end.books)
      && TallyQueued(end.books) !! TallyDownloaded(end.books)
      && (forall k :: end.books.Flagged(k) ==> k !in TallyQueued(end.books) && k !in TallyDownloaded(end.books))
      && (forall i, j :: 0 <= i < j < |end.results| ==> end.results[i].key != end.results[j].key)
  {
    var before := Pass(Working(order, start), [], HealAll(b, heals));
    var end := CheckedTail(cfg, b, heals, order, start, polls, bars);
    HealKeepsNoneObserved(b, heals);
    WorkingIsConserved(before.books, order, start);
    forall i | 0 <= i < |order| ensures before.books.Waiting(order[i]) {
      assert order[i] in order;
    }
    forall j | before.books.Waiting(j) ensures j in KeysOf(before.entries) {
      var i :| 0 <= i < |order| && order[i] == j;
      KeyIsIn(before.entries, i);
    }
    TailEnds(cfg, before, polls, bars, end);
    forall i, j | 0 <= i < j < |end.results| ensures end.results[i].key != end.results[j].key {
      ResultKeysDiffer(end, i, j);
    }
  }
}
