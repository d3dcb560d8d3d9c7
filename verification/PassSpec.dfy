/** An end-of-run pass as a value: its rows, its result rows and the books it writes (`MonitorPass` of
  * import_wait.py). Every step is a function; the lemmas state what all of them conserve.
  */
module PassSpec {
  import opened WaitRows
  import opened ImportLedger

  datatype Entry = Entry(key: string, carriedOver: bool, row: Row)

  datatype ResultRow = ResultRow(key: string, outcome: Outcome, carriedOver: bool)

  /** What one heavy poll of a row observes, and whether the cleanup it may trigger ends clean. */
  datatype PollInput = PollInput(poll: Poll, clean: bool)

  datatype ProgressInput = ProgressInput(progress: Progress, clean: bool)

  datatype Pass = Pass(entries: seq<Entry>, results: seq<ResultRow>, books: Books)

  function ResultOf(e: Entry): ResultRow
    requires !e.row.Active()
  {
    ResultRow(e.key, e.row.phase.outcome, e.carriedOver)
  }

  /** Moves active row `i` to `next`: a terminal frame resolves the record in the books and adds its result. */
  function Moved(ps: Pass, i: nat, next: Row, clean: bool): Pass
    requires i < |ps.entries| && ps.entries[i].row.Active()
  {
    var e := ps.entries[i].(row := next);
    var entries := ps.entries[i := e];
    if next.Active() then
      ps.(entries := entries)
    else
      Pass(entries, ps.results + [ResultOf(e)],
           ps.books.Resolve(e.key, next.phase.outcome, e.carriedOver, clean))
  }

  /** A poll's placed files are saved onto the record before any outcome. */
  function Absorbed(books: Books, key: string, p: Poll): Books {
    if p.reading == Complete(true) && p.probe.placed then books.Save(key, false) else books
  }

  function AdvanceAt(cfg: Config, ps: Pass, i: nat, input: PollInput): Pass
    requires i < |ps.entries|
  {
    var e := ps.entries[i];
    if !e.row.Active() then ps
    else
      Moved(ps.(books := Absorbed(ps.books, e.key, input.poll)), i, Advance(cfg, e.row, input.poll), input.clean)
  }

  function RefreshAt(ps: Pass, i: nat, input: ProgressInput): Pass
    requires i < |ps.entries|
  {
    if !ps.entries[i].row.Active() then ps
    else Moved(ps, i, Refresh(ps.entries[i].row, input.progress), input.clean)
  }

  function RetireAt(ps: Pass, i: nat): Pass
    requires i < |ps.entries|
  {
    if !ps.entries[i].row.Active() then ps else Moved(ps, i, Retired(ps.entries[i].row), false)
  }

  /** The first `n` rows of one heavy-poll cycle. */
  function Cycle(cfg: Config, ps: Pass, inputs: seq<PollInput>, n: nat): (after: Pass)
    requires n <= |ps.entries| <= |inputs|
    ensures |after.entries| == |ps.entries|
  {
    if n == 0 then ps else AdvanceAt(cfg, Cycle(cfg, ps, inputs, n - 1), n - 1, inputs[n - 1])
  }

  function RefreshAll(ps: Pass, inputs: seq<ProgressInput>, n: nat): (after: Pass)
    requires n <= |ps.entries| <= |inputs|
    ensures |after.entries| == |ps.entries|
  {
    if n == 0 then ps else RefreshAt(RefreshAll(ps, inputs, n - 1), n - 1, inputs[n - 1])
  }

  function RetireAll(ps: Pass, n: nat): (after: Pass)
    requires n <= |ps.entries|
    ensures |after.entries| == |ps.entries|
  {
    if n == 0 then ps else RetireAt(RetireAll(ps, n - 1), n - 1)
  }

  /** The check pass: one heavy poll of every row, one refresh, then the rest graduates. */
  function Check(cfg: Config, ps: Pass, polls: seq<PollInput>, bars: seq<ProgressInput>): Pass
    requires |ps.entries| <= |polls| && |ps.entries| <= |bars|
  {
    var n := |ps.entries|;
    RetireAll(RefreshAll(Cycle(cfg, ps, polls, n), bars, n), n)
  }

  /** The active ones among the first `n` rows. */
  function ActiveTo(entries: seq<Entry>, n: nat): nat
    requires n <= |entries|
  {
    if n == 0 then 0 else ActiveTo(entries, n - 1) + (if entries[n - 1].row.Active() then 1 else 0)
  }

  function ActiveCount(entries: seq<Entry>): nat {
    ActiveTo(entries, |entries|)
  }

  /** What one row owes. */
  function OwedBy(e: Entry): multiset<ResultRow> {
    if e.row.Active() then multiset{} else multiset{ResultOf(e)}
  }

  /** The result rows the terminal ones among the first `n` rows owe, as a multiset. */
  function OwedTo(entries: seq<Entry>, n: nat): multiset<ResultRow>
    requires n <= |entries|
  {
    if n == 0 then multiset{}
    else OwedTo(entries, n - 1) + OwedBy(entries[n - 1])
  }

  function Owed(entries: seq<Entry>): multiset<ResultRow> {
    OwedTo(entries, |entries|)
  }

  predicate DistinctKeys(entries: seq<Entry>) {
    forall i, j :: 0 <= i < j < |entries| ==> entries[i].key != entries[j].key
  }

  /** Where a record must stand in the books, given its row: an active row's record is stored unflagged, a
    * MISSING one is gone, an IMPORTED one is gone or kept flagged, and any other outcome leaves it stored.
    */
  predicate RecordStands(e: Entry, books: Books) {
    if e.row.Active() then e.key in books.store && !books.store[e.key]
    else if e.row.phase.outcome == Missing then e.key !in books.store
    else if e.row.phase.outcome == Imported then e.key in books.store ==> books.store[e.key] && e.key in books.kept
    else e.key in books.store && !books.store[e.key]
  }

  /** A carried-over record the pass left stored has the tally state of its outcome. */
  predicate StateFolded(e: Entry, books: Books) {
    !e.row.Active() && e.carriedOver && e.row.phase.outcome != Imported && e.row.phase.outcome != Missing ==>
      e.key in books.states && books.states[e.key] == StateForOutcome(e.row.phase.outcome)
  }

  /** What every step of a pass keeps. */
  predicate Conserved(ps: Pass) {
    && DistinctKeys(ps.entries)
    && multiset(ps.results) == Owed(ps.entries)
    && forall i :: 0 <= i < |ps.entries| ==>
         RecordStands(ps.entries[i], ps.books) && StateFolded(ps.entries[i], ps.books)
  }

  function KeysOf(entries: seq<Entry>): set<string> {
    set e <- entries :: e.key
  }

  /** Both books say the same of record `k`. */
  predicate SameFor(k: string, a: Books, b: Books) {
    && (k in a.store <==> k in b.store) && (k in a.store ==> a.store[k] == b.store[k])
    && (k in a.states <==> k in b.states) && (k in a.states ==> a.states[k] == b.states[k])
    && (k in a.kept <==> k in b.kept)
    && (k in a.grabbed <==> k in b.grabbed)
  }

  /** `after` is a later moment of the same pass: the same records, the frozen rows unchanged, the results grown
    * by appending, and no record outside the pass touched.
    */
  ghost predicate Continues(ps: Pass, after: Pass) {
    && |after.entries| == |ps.entries|
    && ps.results <= after.results
    && KeysOf(after.entries) == KeysOf(ps.entries)
    && (forall i :: 0 <= i < |ps.entries| ==>
          && after.entries[i].key == ps.entries[i].key
          && after.entries[i].carriedOver == ps.entries[i].carriedOver
          && (!ps.entries[i].row.Active() ==> after.entries[i] == ps.entries[i]))
    && (forall k :: k !in KeysOf(ps.entries) ==> SameFor(k, ps.books, after.books))
  }

  /** An active row that ends adds what it owes then, and no other row owes more. */
  lemma {:induction false} OwedCount(entries: seq<Entry>, i: nat, e: Entry, n: nat, r: ResultRow)
    requires i < |entries| && n <= |entries| && entries[i].row.Active()
    ensures OwedTo(entries[i := e], n)[r] == OwedTo(entries, n)[r] + (if i < n then OwedBy(e)[r] else 0)
  {
    if n > 0 {
      OwedCount(entries, i, e, n - 1, r);
    }
  }

  lemma OwedAt(entries: seq<Entry>, i: nat, e: Entry)
    requires i < |entries| && entries[i].row.Active()
    ensures Owed(entries[i := e]) == Owed(entries) + OwedBy(e)
  {
    forall r ensures Owed(entries[i := e])[r] == (Owed(entries) + OwedBy(e))[r] {
      OwedCount(entries, i, e, |entries|, r);
    }
  }

  lemma {:induction false} OwedAndActive(entries: seq<Entry>, n: nat)
    requires n <= |entries|
    ensures |OwedTo(entries, n)| + ActiveTo(entries, n) == n
  {
    if n > 0 {
      OwedAndActive(entries, n - 1);
    }
  }

  /** Each result row is owed by one terminal row: results and active rows together count every row. */
  lemma ResultsAndActiveAreAllRows(entries: seq<Entry>)
    ensures |Owed(entries)| + ActiveCount(entries) == |entries|
  {
    OwedAndActive(entries, |entries|);
  }

  lemma ResolveSparesOthers(b: Books, key: string, outcome: Outcome, carriedOver: bool, clean: bool, k: string)
    requires k != key
    ensures SameFor(k, b, b.Resolve(key, outcome, carriedOver, clean))
  {
  }

  lemma StandsByKey(e: Entry, b: Books, after: Books)
    requires RecordStands(e, b) && StateFolded(e, b) && SameFor(e.key, b, after)
    ensures RecordStands(e, after) && StateFolded(e, after)
  {
  }

  lemma ResolveStands(e: Entry, next: Row, b: Books, clean: bool)
    requires e.row.Active() && RecordStands(e, b) && !next.Active()
    ensures
      var moved, after := e.(row := next), b.Resolve(e.key, next.phase.outcome, e.carriedOver, clean);
      RecordStands(moved, after) && StateFolded(moved, after)
  {
  }

  lemma KeysStay(entries: seq<Entry>, i: nat, e: Entry)
    requires i < |entries| && e.key == entries[i].key
    ensures KeysOf(entries[i := e]) == KeysOf(entries)
  {
    forall k | k in KeysOf(entries) ensures k in KeysOf(entries[i := e]) {
      var j :| 0 <= j < |entries| && entries[j].key == k;
      assert entries[i := e][j] in entries[i := e];
    }
    forall k | k in KeysOf(entries[i := e]) ensures k in KeysOf(entries) {
      var j :| 0 <= j < |entries| && entries[i := e][j].key == k;
      assert entries[j] in entries;
    }
  }

  lemma KeyIsIn(entries: seq<Entry>, i: nat)
    requires i < |entries|
    ensures entries[i].key in KeysOf(entries)
  {
    assert entries[i] in entries;
  }

  lemma MoveSparesOthers(ps: Pass, i: nat, next: Row, clean: bool, k: string)
    requires i < |ps.entries| && ps.entries[i].row.Active() && k != ps.entries[i].key
    ensures SameFor(k, ps.books, Moved(ps, i, next, clean).books)
  {
    if !next.Active() {
      ResolveSparesOthers(ps.books, ps.entries[i].key, next.phase.outcome, ps.entries[i].carriedOver, clean, k);
    }
  }

  lemma MoveStands(ps: Pass, i: nat, next: Row, clean: bool, j: nat)
    requires Conserved(ps) && i < |ps.entries| && ps.entries[i].row.Active() && j < |ps.entries|
    ensures
      var after := Moved(ps, i, next, clean);
      RecordStands(after.entries[j], after.books) && StateFolded(after.entries[j], after.books)
  {
    if j != i {
      MoveSparesOthers(ps, i, next, clean, ps.entries[j].key);
      StandsByKey(ps.entries[j], ps.books, Moved(ps, i, next, clean).books);
    } else if !next.Active() {
      ResolveStands(ps.entries[i], next, ps.books, clean);
    }
  }

  lemma MoveContinues(ps: Pass, i: nat, next: Row, clean: bool)
    requires i < |ps.entries| && ps.entries[i].row.Active()
    ensures Continues(ps, Moved(ps, i, next, clean))
  {
    KeysStay(ps.entries, i, ps.entries[i].(row := next));
    KeyIsIn(ps.entries, i);
    forall k | k !in KeysOf(ps.entries) ensures SameFor(k, ps.books, Moved(ps, i, next, clean).books) {
      MoveSparesOthers(ps, i, next, clean, k);
    }
  }

  /** Any single move of an active row keeps the pass conserved, and the record leaves the store exactly on
    * MISSING, or on IMPORTED with neither cleanup effect failed.
    */
  lemma MoveConserves(ps: Pass, i: nat, next: Row, clean: bool)
    requires Conserved(ps) && i < |ps.entries| && ps.entries[i].row.Active()
    ensures Conserved(Moved(ps, i, next, clean)) && Continues(ps, Moved(ps, i, next, clean))
    ensures ps.entries[i].key !in Moved(ps, i, next, clean).books.store <==>
            next == next.Ended(Missing) || (next == next.Ended(Imported) && clean)
  {
    OwedAt(ps.entries, i, ps.entries[i].(row := next));
    MoveContinues(ps, i, next, clean);
    forall j: nat | j < |ps.entries|
      ensures
        var after := Moved(ps, i, next, clean);
        RecordStands(after.entries[j], after.books) && StateFolded(after.entries[j], after.books)
    {
      MoveStands(ps, i, next, clean, j);
    }
  }

  lemma AbsorbConserves(ps: Pass, i: nat, p: Poll)
    requires Conserved(ps) && i < |ps.entries| && ps.entries[i].row.Active()
    ensures
      var after := ps.(books := Absorbed(ps.books, ps.entries[i].key, p));
      Conserved(after) && Continues(ps, after)
  {
    var after := ps.(books := Absorbed(ps.books, ps.entries[i].key, p));
    KeyIsIn(ps.entries, i);
    forall j | 0 <= j < |ps.entries|
      ensures RecordStands(ps.entries[j], after.books) && StateFolded(ps.entries[j], after.books)
    {
      if j != i {
        StandsByKey(ps.entries[j], ps.books, after.books);
      }
    }
  }

  lemma AdvanceConserves(cfg: Config, ps: Pass, i: nat, input: PollInput)
    requires Conserved(ps) && i < |ps.entries|
    ensures Conserved(AdvanceAt(cfg, ps, i, input)) && Continues(ps, AdvanceAt(cfg, ps, i, input))
  {
    var e := ps.entries[i];
    if e.row.Active() {
      var absorbed := ps.(books := Absorbed(ps.books, e.key, input.poll));
      AbsorbConserves(ps, i, input.poll);
      MoveConserves(absorbed, i, Advance(cfg, e.row, input.poll), input.clean);
      ContinuesChains(ps, absorbed, AdvanceAt(cfg, ps, i, input));
    }
  }

  lemma ThenAdvance(cfg: Config, ps: Pass, mid: Pass, i: nat, input: PollInput, after: Pass)
    requires Conserved(mid) && Continues(ps, mid) && i < |mid.entries| && after == AdvanceAt(cfg, mid, i, input)
    ensures Conserved(after) && Continues(ps, after)
  {
    AdvanceConserves(cfg, mid, i, input);
    ContinuesChains(ps, mid, after);
  }

  lemma CycleNext(cfg: Config, ps: Pass, inputs: seq<PollInput>, n: nat)
    requires 0 < n <= |ps.entries| <= |inputs|
    ensures Cycle(cfg, ps, inputs, n) == AdvanceAt(cfg, Cycle(cfg, ps, inputs, n - 1), n - 1, inputs[n - 1])
  {
  }

  lemma {:induction false} CycleCarriesOn(cfg: Config, ps: Pass, inputs: seq<PollInput>, n: nat) returns (after: Pass)
    requires Conserved(ps) && n <= |ps.entries| <= |inputs|
    ensures after == Cycle(cfg, ps, inputs, n)
    ensures Conserved(after) && Continues(ps, after)
  {
    after := ps;
    if n > 0 {
      CycleNext(cfg, ps, inputs, n);
      var before := CycleCarriesOn(cfg, ps, inputs, n - 1);
      after := AdvanceAt(cfg, before, n - 1, inputs[n - 1]);
      ThenAdvance(cfg, ps, before, n - 1, inputs[n - 1], after);
    }
  }

  lemma CycleConserves(cfg: Config, ps: Pass, inputs: seq<PollInput>, n: nat)
    requires Conserved(ps) && n <= |ps.entries| <= |inputs|
    ensures Conserved(Cycle(cfg, ps, inputs, n)) && Continues(ps, Cycle(cfg, ps, inputs, n))
  {
    var after := CycleCarriesOn(cfg, ps, inputs, n);
  }

  lemma ContinuesChains(a: Pass, b: Pass, c: Pass)
    requires Continues(a, b) && Continues(b, c)
    ensures Continues(a, c)
  {
  }

  lemma ThenRefresh(ps: Pass, mid: Pass, i: nat, input: ProgressInput, after: Pass)
    requires Conserved(mid) && Continues(ps, mid) && i < |mid.entries| && after == RefreshAt(mid, i, input)
    ensures Conserved(after) && Continues(ps, after)
  {
    if mid.entries[i].row.Active() {
      MoveConserves(mid, i, Refresh(mid.entries[i].row, input.progress), input.clean);
      ContinuesChains(ps, mid, after);
    }
  }

  lemma {:induction false} RefreshConserves(ps: Pass, inputs: seq<ProgressInput>, n: nat)
    requires Conserved(ps) && n <= |ps.entries| <= |inputs|
    ensures Conserved(RefreshAll(ps, inputs, n)) && Continues(ps, RefreshAll(ps, inputs, n))
  {
    if n > 0 {
      RefreshConserves(ps, inputs, n - 1);
      ThenRefresh(ps, RefreshAll(ps, inputs, n - 1), n - 1, inputs[n - 1], RefreshAll(ps, inputs, n));
    }
  }

  lemma ThenRetire(ps: Pass, mid: Pass, i: nat, after: Pass)
    requires Conserved(mid) && Continues(ps, mid) && i < |mid.entries| && after == RetireAt(mid, i)
    ensures Conserved(after) && Continues(ps, after)
  {
    if mid.entries[i].row.Active() {
      MoveConserves(mid, i, Retired(mid.entries[i].row), false);
      ContinuesChains(ps, mid, after);
    }
  }

  lemma {:induction false} RetireConserves(ps: Pass, n: nat)
    requires Conserved(ps) && n <= |ps.entries|
    ensures Conserved(RetireAll(ps, n)) && Continues(ps, RetireAll(ps, n))
  {
    if n > 0 {
      RetireConserves(ps, n - 1);
      ThenRetire(ps, RetireAll(ps, n - 1), n - 1, RetireAll(ps, n));
    }
  }

  /** Graduating leaves none of the first `n` rows active. */
  lemma {:induction false} RetireEndsRows(ps: Pass, n: nat)
    requires n <= |ps.entries|
    ensures forall i :: 0 <= i < n ==> !RetireAll(ps, n).entries[i].row.Active()
  {
    if n > 0 {
      RetireEndsRows(ps, n - 1);
    }
  }

  /** The check pass conserves every record and ends with no active row. */
  lemma CheckEndsConserved(cfg: Config, ps: Pass, polls: seq<PollInput>, bars: seq<ProgressInput>)
    requires Conserved(ps) && |ps.entries| <= |polls| && |ps.entries| <= |bars|
    ensures
      var end := Check(cfg, ps, polls, bars);
      && Conserved(end) && Continues(ps, end)
      && (forall i :: 0 <= i < |end.entries| ==> !end.entries[i].row.Active())
      && |end.results| == |end.entries|
  {
    var n := |ps.entries|;
    var polled := Cycle(cfg, ps, polls, n);
    var refreshed := RefreshAll(polled, bars, n);
    CycleConserves(cfg, ps, polls, n);
    RefreshConserves(polled, bars, n);
    RetireConserves(refreshed, n);
    RetireEndsRows(refreshed, n);
    ContinuesChains(ps, polled, refreshed);
    ContinuesChains(ps, refreshed, RetireAll(refreshed, n));
    NoneActive(RetireAll(refreshed, n).entries);
    ResultsAndActiveAreAllRows(RetireAll(refreshed, n).entries);
    assert |multiset(RetireAll(refreshed, n).results)| == |RetireAll(refreshed, n).results|;
  }

  lemma {:induction false} NoneActiveTo(entries: seq<Entry>, n: nat)
    requires n <= |entries| && forall i :: 0 <= i < |entries| ==> !entries[i].row.Active()
    ensures ActiveTo(entries, n) == 0
  {
    if n > 0 {
      NoneActiveTo(entries, n - 1);
    }
  }

  lemma NoneActive(entries: seq<Entry>)
    requires forall i :: 0 <= i < |entries| ==> !entries[i].row.Active()
    ensures ActiveCount(entries) == 0
  {
    NoneActiveTo(entries, |entries|);
  }
}
