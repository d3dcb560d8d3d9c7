/** The history-cursor protocol: what one run derives from the arr's history, what it may commit, and why no
  * file change is lost over any sequence of runs (arr_activity.py, the full-pass gate of run_loop.py, the staged
  * checkpoint of cache.py).
  */
module HistoryCursor {
  import opened Wrappers

  // Instants are microseconds on the arr's clock.
  const HOUR := 3_600_000_000
  const QUERY_OVERLAP := 26 * HOUR
  const MAX_LOOKBACK := 30 * 24 * HOUR
  const SECOND := 1_000_000

  /** A record's raw stamp as the client read it: missing, unreadable, or an instant. */
  datatype Stamp = Blank | Junk | At(instant: int)

  /** An event type, casefolded, with the reason a delete carries. */
  datatype Event = Import | Delete(upgrade: bool) | OtherEvent

  datatype HistoryRecord = HistoryRecord(id: int, at: int, date: Stamp, itemId: int, event: Event)

  /** `_is_file_change`: an import, or a delete that no upgrade explains. */
  predicate IsFileChange(r: HistoryRecord) {
    r.event.Import? || (r.event.Delete? && !r.event.upgrade)
  }

  datatype Checkpoint = Checkpoint(since: Stamp, lastId: int)

  datatype Window = Window(query: int, rescanAll: bool)

  datatype ActivityScan = ActivityScan(touched: set<int>, rescanAll: bool)

  /** The query date as sent: whole seconds, rounded down. */
  function Sent(instant: int): (sent: int)
    ensures sent % 1_000_000 == 0 && sent <= instant < sent + 1_000_000
  {
    instant / SECOND * SECOND
  }

  function Floor(now: int): int {
    now - MAX_LOOKBACK
  }

  /** `_resolve_window`. */
  function ResolveWindow(checkpoint: Option<Checkpoint>, now: int): Window {
    if checkpoint.None? then Window(Floor(now), false)
    else if !checkpoint.value.since.At? then Window(Floor(now), true)
    else
      var since := checkpoint.value.since.instant;
      var query := (if since <= now then since else now) - QUERY_OVERLAP;
      if query < Floor(now) then Window(Floor(now), true) else Window(query, false)
  }

  function LastId(checkpoint: Option<Checkpoint>): int {
    if checkpoint.Some? then checkpoint.value.lastId else 0
  }

  /** The window: the lookback floor on a first run or an unreadable cursor date; else the query overlap before the
    * cursor or before now, whichever is earlier, unless that lies below the floor. What the clamp cuts off is
    * rescanned.
    */
  lemma WindowIs(checkpoint: Option<Checkpoint>, now: int)
    ensures
      var w := ResolveWindow(checkpoint, now);
      var floor := now - 30 * 24 * 3_600_000_000;
      && w.query >= floor
      && (checkpoint.None? ==> w.query == floor && !w.rescanAll)
      && (checkpoint.Some? && !checkpoint.value.since.At? ==> w.query == floor && w.rescanAll)
      && (checkpoint.Some? && checkpoint.value.since.At? ==>
            var since := checkpoint.value.since.instant;
            var overlap := 26 * 3_600_000_000;
            && (w.rescanAll <==> since - overlap < floor)
            && (w.rescanAll ==> w.query == floor)
            && (!w.rescanAll ==>
                  && w.query <= since - overlap && w.query <= now - overlap
                  && (w.query == since - overlap || w.query == now - overlap)))
  {
  }

  /** The records past the id cursor. */
  function Fresh(records: seq<HistoryRecord>, lastId: int): seq<HistoryRecord> {
    if records == [] then []
    else
      var before := Fresh(records[..|records| - 1], lastId);
      if records[|records| - 1].id > lastId then before + [records[|records| - 1]] else before
  }

  /** The first record with the largest id. */
  function Newest(records: seq<HistoryRecord>): HistoryRecord
    requires records != []
  {
    var last := records[|records| - 1];
    if |records| == 1 then last
    else
      var before := Newest(records[..|records| - 1]);
      if last.id > before.id then last else before
  }

  function Touched(records: seq<HistoryRecord>): set<int> {
    set r <- records | r.itemId > 0 && IsFileChange(r) :: r.itemId
  }

  /** The advanced cursor a scan stashes: the newest record past the old one, unless it carries no date. */
  function Advanced(newer: seq<HistoryRecord>): Option<Checkpoint> {
    if newer == [] || Newest(newer).date.Blank? then None
    else Some(Checkpoint(Newest(newer).date, Newest(newer).id))
  }

  function ScanOf(window: Window, newer: seq<HistoryRecord>): ActivityScan {
    if window.rescanAll || newer == [] then ActivityScan({}, window.rescanAll) else ActivityScan(Touched(newer), false)
  }

  /** The cache's checkpoint row: the committed one and the connection's own, staged view. */
  class CacheStore {
    var committed: Option<Checkpoint>
    var staged: Option<Checkpoint>

    constructor (stored: Option<Checkpoint>)
      ensures committed == staged == stored
    {
      committed, staged := stored, stored;
    }

    method PutCheckpoint(checkpoint: Checkpoint)
      modifies this
      ensures staged == Some(checkpoint) && committed == old(committed)
    {
      staged := Some(checkpoint);
    }

    /** A preview never commits. */
    method Save(preview: bool)
      modifies this
      ensures staged == old(staged) && committed == if preview then old(committed) else old(staged)
    {
      if preview {
        return;
      }
      committed := staged;
    }

    /** Rolls back whatever no save committed. */
    method Close()
      modifies this
      ensures committed == staged == old(committed)
    {
      staged := committed;
    }
  }

  class ArrActivityMonitor {
    const store: CacheStore
    var pending: Option<Checkpoint>

    constructor (store: CacheStore)
      ensures this.store == store && pending == None
    {
      this.store, pending := store, None;
    }

    /** `scan`: `fetch` answers the arr's records since a date, or None when it could not be read. */
    method Scan(fetch: int -> Option<seq<HistoryRecord>>, now: int) returns (scan: ActivityScan)
      modifies this
      ensures
        var window := ResolveWindow(store.staged, now);
        var records := fetch(Sent(window.query));
        if records.None? then
          scan == ActivityScan({}, false) && pending == old(pending)
        else
          var newer := Fresh(records.value, LastId(store.staged));
          && scan == ScanOf(window, newer)
          && pending == if Advanced(newer).Some? then Advanced(newer) else old(pending)
    {
      var checkpoint := store.staged;
      var window := ResolveWindow(checkpoint, now);
      var records := fetch(Sent(window.query));
      if records.None? {
        return ActivityScan({}, false);
      }
      var lastId := LastId(checkpoint);
      var newer: seq<HistoryRecord> := [];
      var touched: set<int> := {};
      for i := 0 to |records.value|
        invariant newer == Fresh(records.value[..i], lastId)
        invariant touched == Touched(newer)
      {
        var r := records.value[i];
        assert records.value[..i + 1][..i] == records.value[..i];
        if r.id > lastId {
          newer := newer + [r];
          if r.itemId > 0 && IsFileChange(r) {
            touched := touched + {r.itemId};
          }
        }
      }
      assert records.value[..|records.value|] == records.value;
      if newer != [] {
        var newest := FindNewest(newer);
        if !newest.date.Blank? {
          pending := Some(Checkpoint(newest.date, newest.id));
        }
      }
      if window.rescanAll || newer == [] {
        return ActivityScan({}, window.rescanAll);
      }
      return ActivityScan(touched, false);
    }

    method FindNewest(records: seq<HistoryRecord>) returns (newest: HistoryRecord)
      requires records != []
      ensures newest == Newest(records)
    {
      newest := records[0];
      for i := 1 to |records|
        invariant newest == Newest(records[..i])
      {
        assert records[..i + 1][..i] == records[..i];
        if records[i].id > newest.id {
          newest := records[i];
        }
      }
      assert records[..|records|] == records;
    }

    /** Stages the advanced cursor, if the scan produced one. */
    method CommitCheckpoint()
      modifies store
      ensures store.committed == old(store.committed)
      ensures store.staged == if pending.Some? then pending else old(store.staged)
    {
      if pending.None? {
        return;
      }
      store.PutCheckpoint(pending.value);
    }
  }

  // One run.

  /** Everything about a run that its cursor depends on. `seen` is how much of the history the arr held at the
    * fetch; a run that stops reaches no finalize save.
    */
  datatype RunInput = RunInput(
    now: int,
    seen: nat,
    detects: bool,
    readable: bool,
    singleItem: bool,
    held: bool,
    seadexOutage: bool,
    skyhookOutage: bool,
    preview: bool,
    stopped: bool)
  {
    predicate FullPass() {
      !singleItem && !held && !seadexOutage && !skyhookOutage
    }

    /** The run's end save covers a full pass: what it marked dirty was acted on and persists. */
    predicate Commits() {
      detects && FullPass() && !preview && !stopped
    }
  }

  /** The arr's answer to `/history/since`: every record dated at or after the query, in id order. */
  function Since(history: seq<HistoryRecord>, query: int): seq<HistoryRecord> {
    if history == [] then []
    else
      var before := Since(history[..|history| - 1], query);
      if history[|history| - 1].at >= query then before + [history[|history| - 1]] else before
  }

  function Fetched(history: seq<HistoryRecord>, run: RunInput, query: int): Option<seq<HistoryRecord>>
    requires run.seen <= |history|
  {
    if run.readable then Some(Since(history[..run.seen], query)) else None
  }

  /** One committed full pass over a readable history: its run, what it marked, and a first run's floor. */
  datatype RunLog = RunLog(run: RunInput, scan: ActivityScan, bootstrapFloor: Option<int>)

  datatype World = World(stored: Option<Checkpoint>, log: seq<RunLog>)

  function NewRecords(history: seq<HistoryRecord>, stored: Option<Checkpoint>, run: RunInput): seq<HistoryRecord>
    requires run.seen <= |history|
  {
    Fresh(Since(history[..run.seen], Sent(ResolveWindow(stored, run.now).query)), LastId(stored))
  }

  /** One run from start to close. */
  function Step(history: seq<HistoryRecord>, w: World, run: RunInput): World
    requires run.seen <= |history|
  {
    if !run.Commits() || !run.readable then w
    else
      var newer := NewRecords(history, w.stored, run);
      var window := ResolveWindow(w.stored, run.now);
      World(if Advanced(newer).Some? then Advanced(newer) else w.stored,
            w.log
            + [RunLog(run, ScanOf(window, newer), if w.stored.None? then Some(Sent(window.query)) else None)])
  }

  /** Record `j` is the newest the run reads, the first of them where ids tie. */
  ghost predicate NewestRead(history: seq<HistoryRecord>, stored: Option<Checkpoint>, run: RunInput, j: nat)
    requires run.seen <= |history|
  {
    && Reads(history, stored, run, j)
    && forall i: nat :: Reads(history, stored, run, i) ==>
         history[i].id <= history[j].id && (i < j ==> history[i].id < history[j].id)
  }

  lemma NewestOfMore(before: seq<HistoryRecord>, last: HistoryRecord)
    ensures Newest(before + [last]) == if before == [] || last.id > Newest(before).id then last else Newest(before)
  {
    assert (before + [last])[..|before|] == before;
  }

  lemma {:induction false} NewestOf(history: seq<HistoryRecord>, query: int, lastId: int, j: nat)
    requires j < |history| && history[j].id > lastId && history[j].at >= query
    requires forall i: nat | i < |history| && history[i].id > lastId && history[i].at >= query ::
      history[i].id <= history[j].id && (i < j ==> history[i].id < history[j].id)
    ensures Fresh(Since(history, query), lastId) != []
    ensures Newest(Fresh(Since(history, query), lastId)) == history[j]
  {
    var n := |history| - 1;
    var before := Fresh(Since(history[..n], query), lastId);
    FreshOneMore(history, query, lastId);
    NewestOfMore(before, history[n]);
    if j < n {
      NewestOf(history[..n], query, lastId, j);
    } else if before != [] {
      NewestIsLargest(before);
      FreshHolds(Since(history[..n], query), lastId, Newest(before));
      SinceHolds(history[..n], query, Newest(before));
      var i :| 0 <= i < n && history[..n][i] == Newest(before);
      assert history[i].id < history[n].id;
    }
  }

  lemma FreshOneMore(history: seq<HistoryRecord>, query: int, lastId: int)
    requires history != []
    ensures
      var n := |history| - 1;
      Fresh(Since(history, query), lastId) ==
        Fresh(Since(history[..n], query), lastId)
        + if history[n].at >= query && history[n].id > lastId then [history[n]] else []
  {
    var n := |history| - 1;
    var before := Since(history[..n], query);
    assert (before + [history[n]])[..|before|] == before;
  }

  /** Where the cursor comes to: nowhere in a run that fails the gate, and else to the newest record read, unless that
    * one is undated.
    */
  lemma CursorReaches(history: seq<HistoryRecord>, w: World, run: RunInput)
    requires run.seen <= |history|
    ensures (run.singleItem || run.held || run.seadexOutage || run.skyhookOutage || run.preview || run.stopped
             || !run.detects || !run.readable) ==>
        Step(history, w, run) == w
    ensures (!run.singleItem && !run.held && !run.seadexOutage && !run.skyhookOutage && !run.preview && !run.stopped
             && run.detects && run.readable) ==>
        && (forall j: nat :: NewestRead(history, w.stored, run, j) ==>
              Step(history, w, run).stored ==
                if history[j].date.Blank? then w.stored else Some(Checkpoint(history[j].date, history[j].id)))
        && ((forall j: nat :: !Reads(history, w.stored, run, j)) ==> Step(history, w, run).stored == w.stored)
  {
    var seen, query := history[..run.seen], Sent(ResolveWindow(w.stored, run.now).query);
    forall j: nat | NewestRead(history, w.stored, run, j)
      ensures NewRecords(history, w.stored, run) != [] && Newest(NewRecords(history, w.stored, run)) == history[j]
    {
      forall i: nat | i < |seen| && seen[i].id > LastId(w.stored) && seen[i].at >= query
        ensures seen[i].id <= seen[j].id && (i < j ==> seen[i].id < seen[j].id)
      {
        assert Reads(history, w.stored, run, i);
      }
      NewestOf(seen, query, LastId(w.stored), j);
    }
    var newer := NewRecords(history, w.stored, run);
    if newer != [] {
      NewRecordsAre(history, w.stored, run, newer[0]);
      var j :| 0 <= j < run.seen && seen[j] == newer[0];
      assert Reads(history, w.stored, run, j);
    }
  }

  /** A run as the loop drives it: scan, one save a title, the gate, the finalize save, the close. */
  method RunSync(store: CacheStore, history: seq<HistoryRecord>, run: RunInput, titles: nat, ghost w: World)
    returns (marked: ActivityScan)
    requires run.seen <= |history|
    requires store.committed == store.staged == w.stored
    modifies store
    ensures store.committed == store.staged == Step(history, w, run).stored
    ensures run.Commits() && run.readable ==> Step(history, w, run).log[|w.log|].scan == marked
    ensures (run.singleItem || run.held || run.seadexOutage || run.skyhookOutage || run.preview || run.stopped
             || !run.detects || !run.readable) ==>
        store.committed == old(store.committed)
    ensures (!run.singleItem && !run.held && !run.seadexOutage && !run.skyhookOutage && !run.preview && !run.stopped
             && run.detects && run.readable) ==>
        forall j: nat :: NewestRead(history, old(store.committed), run, j) ==>
          store.committed ==
            if history[j].date.Blank? then old(store.committed) else Some(Checkpoint(history[j].date, history[j].id))
    ensures (forall j: nat :: !Reads(history, old(store.committed), run, j)) ==> store.committed == old(store.committed)
  {
    CursorReaches(history, w, run);
    var monitor: ArrActivityMonitor? := null;
    marked := ActivityScan({}, false);
    if run.detects {
      monitor := new ArrActivityMonitor(store);
      marked := monitor.Scan(query => Fetched(history, run, query), run.now);
    }
    ghost var stash := if monitor == null then None else monitor.pending;
    for t := 0 to titles
      invariant store.committed == store.staged == w.stored
      invariant monitor != null ==> monitor.store == store && monitor.pending == stash
    {
      store.Save(run.preview);
    }
    if monitor != null && run.FullPass() {
      monitor.CommitCheckpoint();
    }
    if !run.stopped {
      store.Save(run.preview);
    }
    store.Close();
  }

  ghost predicate SeenInOrder(history: seq<HistoryRecord>, runs: seq<RunInput>) {
    && (forall k :: 0 <= k < |runs| ==> runs[k].seen <= |history|)
    && (forall j, k :: 0 <= j < k < |runs| ==> runs[j].seen <= runs[k].seen)
  }

  function RunAll(history: seq<HistoryRecord>, runs: seq<RunInput>): World
    requires forall k :: 0 <= k < |runs| ==> runs[k].seen <= |history|
  {
    if runs == [] then World(None, [])
    else Step(history, RunAll(history, runs[..|runs| - 1]), runs[|runs| - 1])
  }

  /** The arr's own promises: ids grow from 1, a readable stamp is the record's instant, and a later id is dated
    * at most the query overlap before an earlier one.
    */
  predicate GoodHistory(history: seq<HistoryRecord>) {
    && (forall i :: 0 <= i < |history| ==> history[i].id > 0)
    && (forall i, j :: 0 <= i < j < |history| ==> history[i].id < history[j].id)
    && (forall i :: 0 <= i < |history| ==> history[i].date.At? ==> history[i].date.instant == history[i].at)
    && (forall i, j :: 0 <= i < j < |history| ==> history[i].at - QUERY_OVERLAP <= history[j].at)
  }

  /** A committed full pass marked record `i`'s item, or marked everything, or began the cursor above it. */
  predicate HandledBy(history: seq<HistoryRecord>, entry: RunLog, i: nat)
    requires i < |history|
  {
    && i < entry.run.seen
    && (|| entry.scan.rescanAll
        || history[i].itemId in entry.scan.touched
        || (entry.bootstrapFloor.Some? && history[i].at < entry.bootstrapFloor.value))
  }

  predicate Handled(history: seq<HistoryRecord>, log: seq<RunLog>, i: nat)
    requires i < |history|
  {
    exists k :: 0 <= k < |log| && HandledBy(history, log[k], i)
  }

  predicate Matters(r: HistoryRecord) {
    r.itemId > 0 && IsFileChange(r)
  }

  /** Which records must be delivered: those that brought a file of an item or took one away, but for an upgrade. */
  lemma MattersIff(r: HistoryRecord)
    ensures Matters(r) <==> r.itemId > 0 && (r.event == Import || r.event == Delete(false))
  {
  }

  /** The stored cursor is a record of the seen history, and everything up to it is handled. */
  ghost predicate Covered(history: seq<HistoryRecord>, seen: nat, w: World)
    requires seen <= |history|
  {
    && (w.stored.Some? ==>
          exists p :: 0 <= p < seen && history[p].id == w.stored.value.lastId
            && history[p].date == w.stored.value.since)
    && (forall i :: 0 <= i < seen && history[i].id <= LastId(w.stored) && Matters(history[i]) ==>
          Handled(history, w.log, i))
  }

  lemma {:induction false} SinceHolds(history: seq<HistoryRecord>, query: int, r: HistoryRecord)
    ensures r in Since(history, query) <==> r in history && r.at >= query
  {
    if history != [] {
      SinceHolds(history[..|history| - 1], query, r);
    }
  }

  lemma {:induction false} FreshHolds(records: seq<HistoryRecord>, lastId: int, r: HistoryRecord)
    ensures r in Fresh(records, lastId) <==> r in records && r.id > lastId
  {
    if records != [] {
      FreshHolds(records[..|records| - 1], lastId, r);
    }
  }

  lemma {:induction false} NewestIsLargest(records: seq<HistoryRecord>)
    requires records != []
    ensures Newest(records) in records
    ensures forall r :: r in records ==> r.id <= Newest(records).id
  {
    if |records| > 1 {
      NewestIsLargest(records[..|records| - 1]);
    }
  }

  /** What a scan reads: exactly the seen records past the cursor that the window reaches. */
  lemma NewRecordsAre(history: seq<HistoryRecord>, stored: Option<Checkpoint>, run: RunInput, r: HistoryRecord)
    requires run.seen <= |history|
    ensures
      r in NewRecords(history, stored, run) <==>
        r in history[..run.seen] && r.id > LastId(stored) && r.at >= Sent(ResolveWindow(stored, run.now).query)
  {
    var query := Sent(ResolveWindow(stored, run.now).query);
    SinceHolds(history[..run.seen], query, r);
    FreshHolds(Since(history[..run.seen], query), LastId(stored), r);
  }

  /** The run reads record `j`: past the cursor, and dated within the sent window. */
  predicate Reads(history: seq<HistoryRecord>, stored: Option<Checkpoint>, run: RunInput, j: nat)
    requires run.seen <= |history|
  {
    j < run.seen && history[j].id > LastId(stored) && history[j].at >= Sent(ResolveWindow(stored, run.now).query)
  }

  lemma TouchedIff(history: seq<HistoryRecord>, stored: Option<Checkpoint>, run: RunInput, item: int)
    requires run.seen <= |history|
    ensures item in Touched(NewRecords(history, stored, run)) <==>
            item > 0 &&
            exists j :: 0 <= j < run.seen && Reads(history, stored, run, j) && history[j].itemId == item
              && (history[j].event == Import || history[j].event == Delete(false))
  {
    var newer := NewRecords(history, stored, run);
    if item in Touched(newer) {
      var r :| r in newer && r.itemId == item && IsFileChange(r);
      NewRecordsAre(history, stored, run, r);
      var j :| 0 <= j < run.seen && history[..run.seen][j] == r;
      assert Reads(history, stored, run, j);
    }
    forall j: nat | Reads(history, stored, run, j) && history[j].itemId == item && item > 0
      && (history[j].event == Import || history[j].event == Delete(false))
      ensures item in Touched(newer)
    {
      assert history[..run.seen][j] == history[j];
      NewRecordsAre(history, stored, run, history[j]);
    }
  }

  /** What a committing run handles of what is new to it, on any history, however late its records are dated: everything
    * when its window was clamped or is its first, and else the items of the records dated at or after the sent query.
    */
  lemma RunHandlesIff(history: seq<HistoryRecord>, w: World, run: RunInput, i: nat)
    requires run.seen <= |history| && run.Commits() && run.readable
    requires i < run.seen && history[i].id > LastId(w.stored) && Matters(history[i])
    ensures |Step(history, w, run).log| == |w.log| + 1
    ensures
      HandledBy(history, Step(history, w, run).log[|w.log|], i) <==>
        || ResolveWindow(w.stored, run.now).rescanAll
        || w.stored.None?
        || exists j :: 0 <= j < run.seen && Reads(history, w.stored, run, j) && Matters(history[j])
             && history[j].itemId == history[i].itemId
  {
    TouchedIff(history, w.stored, run, history[i].itemId);
    if w.stored.None? && history[i].at >= Sent(ResolveWindow(w.stored, run.now).query) {
      assert Reads(history, w.stored, run, i);
    }
  }

  /** The log holds the runs that acted: over any runs a run is logged exactly if it was for the whole library, held
    * nothing back, saw neither outage, was no preview, was not stopped, and read the history.
    */
  lemma {:induction false} LoggedRunsActed(history: seq<HistoryRecord>, runs: seq<RunInput>, run: RunInput)
    requires forall k :: 0 <= k < |runs| ==> runs[k].seen <= |history|
    ensures
      (exists entry :: entry in RunAll(history, runs).log && entry.run == run) <==>
        && run in runs && !run.singleItem && !run.held && !run.seadexOutage && !run.skyhookOutage
        && !run.preview && !run.stopped && run.detects && run.readable
  {
    if runs != [] {
      var before, last := runs[..|runs| - 1], runs[|runs| - 1];
      LoggedRunsActed(history, before, run);
      var w, next := RunAll(history, before), Step(history, RunAll(history, before), last);
      assert runs == before + [last];
      assert next == RunAll(history, runs);
      if next.log != w.log {
        assert next.log == w.log + [next.log[|w.log|]] && next.log[|w.log|].run == last;
        assert next.log[|w.log|] in next.log;
      }
    }
  }

  lemma LargerIdIsLater(history: seq<HistoryRecord>, p: nat, i: nat)
    requires GoodHistory(history) && p < |history| && i < |history| && history[p].id < history[i].id
    ensures p < i
  {
  }

  /** An unclamped window past the cursor reaches every later record. */
  lemma WindowReachesTheRest(history: seq<HistoryRecord>, stored: Option<Checkpoint>, now: int, p: nat, i: nat)
    requires GoodHistory(history) && p < |history| && i < |history|
    requires stored == Some(Checkpoint(history[p].date, history[p].id))
    requires !ResolveWindow(stored, now).rescanAll && history[i].id > history[p].id
    ensures Sent(ResolveWindow(stored, now).query) <= history[i].at
  {
    LargerIdIsLater(history, p, i);
    assert history[p].at - QUERY_OVERLAP <= history[i].at;
  }

  /** A committing run over a readable history handles every record it could see past the old cursor. */
  lemma CommittingRunHandles(history: seq<HistoryRecord>, seen: nat, w: World, run: RunInput, i: nat)
    requires GoodHistory(history) && seen <= run.seen <= |history| && Covered(history, seen, w)
    requires run.Commits() && run.readable
    requires i < run.seen && history[i].id > LastId(w.stored) && Matters(history[i])
    ensures HandledBy(history, Step(history, w, run).log[|w.log|], i)
  {
    var window := ResolveWindow(w.stored, run.now);
    if !window.rescanAll {
      NewRecordsAre(history, w.stored, run, history[i]);
      assert history[i] == history[..run.seen][i];
      if w.stored.Some? {
        var p :| 0 <= p < seen && history[p].id == w.stored.value.lastId && history[p].date == w.stored.value.since;
        WindowReachesTheRest(history, w.stored, run.now, p, i);
      }
    }
  }

  lemma HandledStays(history: seq<HistoryRecord>, log: seq<RunLog>, entry: RunLog, i: nat)
    requires i < |history| && (Handled(history, log, i) || HandledBy(history, entry, i))
    ensures Handled(history, log + [entry], i)
  {
    if Handled(history, log, i) {
      var k :| 0 <= k < |log| && HandledBy(history, log[k], i);
      assert (log + [entry])[k] == log[k];
    } else {
      assert (log + [entry])[|log|] == entry;
    }
  }

  /** The cursor a run stores is a record it saw, strictly past the old one. */
  lemma AdvancedIsASeenRecord(history: seq<HistoryRecord>, stored: Option<Checkpoint>, run: RunInput) returns (p: nat)
    requires run.seen <= |history| && Advanced(NewRecords(history, stored, run)).Some?
    ensures p < run.seen && LastId(stored) < history[p].id
    ensures Advanced(NewRecords(history, stored, run)) == Some(Checkpoint(history[p].date, history[p].id))
  {
    var newer := NewRecords(history, stored, run);
    NewestIsLargest(newer);
    NewRecordsAre(history, stored, run, Newest(newer));
    p :| 0 <= p < run.seen && history[..run.seen][p] == Newest(newer);
  }

  /** Every run keeps the cursor covered, and a run that moves it moves it strictly forward. */
  lemma StepKeepsCovered(history: seq<HistoryRecord>, seen: nat, w: World, run: RunInput)
    requires GoodHistory(history) && seen <= run.seen <= |history| && Covered(history, seen, w)
    ensures Covered(history, run.seen, Step(history, w, run))
    ensures Step(history, w, run).stored != w.stored ==> LastId(w.stored) < LastId(Step(history, w, run).stored)
  {
    var next := Step(history, w, run);
    if w.stored.Some? {
      var p :| 0 <= p < seen && history[p].id == w.stored.value.lastId && history[p].date == w.stored.value.since;
      assert forall i :: seen <= i < run.seen ==> history[p].id < history[i].id;
    }
    if run.Commits() && run.readable {
      if Advanced(NewRecords(history, w.stored, run)).Some? {
        var p := AdvancedIsASeenRecord(history, w.stored, run);
      }
      forall i | 0 <= i < run.seen && Matters(history[i]) && history[i].id <= LastId(next.stored)
        ensures Handled(history, next.log, i)
      {
        if history[i].id > LastId(w.stored) {
          CommittingRunHandles(history, seen, w, run, i);
        }
        HandledStays(history, w.log, next.log[|w.log|], i);
      }
    }
  }

  function SeenBy(runs: seq<RunInput>): nat {
    if runs == [] then 0 else runs[|runs| - 1].seen
  }

  /** At-least-once delivery: over every sequence of runs, each file change at or before the stored cursor was
    * marked dirty by some full pass whose save committed (or predates the first cursor's floor).
    */
  lemma {:induction false} AtLeastOnce(history: seq<HistoryRecord>, runs: seq<RunInput>)
    requires GoodHistory(history) && SeenInOrder(history, runs)
    ensures Covered(history, SeenBy(runs), RunAll(history, runs))
  {
    if runs != [] {
      var before := runs[..|runs| - 1];
      AtLeastOnce(history, before);
      StepKeepsCovered(history, SeenBy(before), RunAll(history, before), runs[|runs| - 1]);
    }
  }

  /** A healthy run catches up: once it commits, every file change the arr held at its fetch is handled. */
  lemma HealthyRunCatchesUp(history: seq<HistoryRecord>, runs: seq<RunInput>, i: nat)
    requires GoodHistory(history) && SeenInOrder(history, runs) && runs != []
    requires runs[|runs| - 1].Commits() && runs[|runs| - 1].readable
    requires i < SeenBy(runs) && Matters(history[i])
    ensures Handled(history, RunAll(history, runs).log, i)
  {
    var before, run := runs[..|runs| - 1], runs[|runs| - 1];
    var w := RunAll(history, before);
    AtLeastOnce(history, before);
    if w.stored.Some? {
      var p :| 0 <= p < SeenBy(before) && history[p].id == w.stored.value.lastId;
      assert forall j :: SeenBy(before) <= j < |history| ==> history[p].id < history[j].id;
    }
    if history[i].id > LastId(w.stored) {
      CommittingRunHandles(history, SeenBy(before), w, run, i);
    }
    HandledStays(history, w.log, Step(history, w, run).log[|w.log|], i);
  }

  // The lag assumption is needed: a record dated past the overlap before its predecessor.

  const EARLY := HistoryRecord(1, 40 * HOUR, At(40 * HOUR), 7, Import)
  const LATE := HistoryRecord(2, 13 * HOUR, At(13 * HOUR), 8, Import)
  const LAST := HistoryRecord(3, 41 * HOUR, At(41 * HOUR), 9, Import)
  const HEALTHY := RunInput(42 * HOUR, 1, true, true, false, false, false, false, false, false)

  /** The first healthy run sees the early record alone. */
  lemma FirstRunSeesEarly()
    ensures RunAll([EARLY, LATE, LAST], [HEALTHY]) ==
            World(Some(Checkpoint(At(40 * HOUR), 1)),
                  [RunLog(HEALTHY, ActivityScan({7}, false), Some(Sent(Floor(42 * HOUR))))])
  {
    var query := Sent(Floor(42 * HOUR));
    assert [EARLY, LATE, LAST][..1] == [EARLY] && [EARLY][..0] == [] && [HEALTHY][..0] == [];
    assert Since([], query) == [] && Since([EARLY], query) == [EARLY];
    assert Fresh([], 0) == [] && Fresh([EARLY], 0) == [EARLY];
    assert NewRecords([EARLY, LATE, LAST], None, HEALTHY) == [EARLY];
    assert RunAll([EARLY, LATE, LAST], []) == World(None, []);
    assert Touched([EARLY]) == {7};
  }

  /** The second one's window starts past the late record, and its cursor moves beyond it. */
  lemma SecondRunMissesLate()
    ensures NewRecords([EARLY, LATE, LAST], Some(Checkpoint(At(40 * HOUR), 1)), HEALTHY.(seen := 3)) == [LAST]
  {
    var query := Sent(14 * HOUR);
    assert query == 14 * HOUR;
    assert [EARLY, LATE, LAST][..3] == [EARLY, LATE, LAST] && [EARLY, LATE, LAST][..2] == [EARLY, LATE];
    assert [EARLY, LATE][..1] == [EARLY] && [EARLY][..0] == [] && [EARLY, LAST][..1] == [EARLY];
    assert Since([], query) == [] && Since([EARLY], query) == [EARLY];
    assert Since([EARLY, LATE], query) == [EARLY];
    assert Since([EARLY, LATE, LAST], query) == [EARLY, LAST];
    assert Fresh([], 1) == [] && Fresh([EARLY], 1) == [] && Fresh([EARLY, LAST], 1) == [LAST];
  }

  lemma SecondRunMovesOn()
    ensures
      var w := RunAll([EARLY, LATE, LAST], [HEALTHY, HEALTHY.(seen := 3)]);
      && LastId(w.stored) == 3
      && w.log == [RunLog(HEALTHY, ActivityScan({7}, false), Some(Sent(Floor(42 * HOUR)))),
                   RunLog(HEALTHY.(seen := 3), ActivityScan({9}, false), None)]
  {
    var runs := [HEALTHY, HEALTHY.(seen := 3)];
    assert runs[..1] == [HEALTHY];
    FirstRunSeesEarly();
    SecondRunMissesLate();
    assert Touched([LAST]) == {9};
  }

  /** Such a record is never delivered, although the cursor moves past its id. */
  lemma LateRecordIsLost()
    ensures
      var history, runs := [EARLY, LATE, LAST], [HEALTHY, HEALTHY.(seen := 3)];
      var w := RunAll(history, runs);
      SeenInOrder(history, runs) && Matters(LATE) && LastId(w.stored) == 3 && !Handled(history, w.log, 1)
  {
    SecondRunMovesOn();
  }
}
