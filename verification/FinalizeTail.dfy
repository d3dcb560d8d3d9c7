/** The deferred finalize tail as the run executes it, proved to be the tail of `TailSpec` and to count as its
  * four disjoint counters (`RunLoop._finalize_run`, `ImportWaitManager`, `PostImportCleanup`).
  */
module FinalizeTail {
  import opened Wrappers
  import opened ReadyClocks
  import opened WaitRows
  import opened ImportLedger
  import opened PassSpec
  import opened MonitorPasses
  import opened TailSpec

  /** Taking `k` off the work left uncovers it in `s`. */
  lemma Uncovered(s: set<string>, todo: set<string>, k: string)
    requires k in todo
    ensures |s - (todo - {k})| == |s - todo| + (if k in s then 1 else 0)
  {
    assert s - (todo - {k}) == if k in s then (s - todo) + {k} else s - todo;
  }

  lemma AllCovered(s: set<string>, todo: set<string>)
    requires s <= todo
    ensures |s - todo| == 0
  {
  }

  lemma NoneCovered(s: set<string>)
    ensures |s - {}| == |s|
  {
    assert s - {} == s;
  }

  class ImportWaitManager {
    const cfg: Config
    const ledger: Ledger

    constructor (cfg: Config, ledger: Ledger)
      ensures this.cfg == cfg && this.ledger == ledger
    {
      this.cfg, this.ledger := cfg, ledger;
    }

    method HealOne(h: HealInput)
      modifies ledger
      ensures ledger.View() == TailSpec.HealOne(old(ledger.View()), h)
    {
      if h.reading.Gone? {
        var _ := ledger.Retire(h.key, h.clean);
        return;
      }
      if h.reading != Complete(true) {
        return;
      }
      if h.probe.placed {
        ledger.Save(h.key, true);
      }
      if h.probe.filesPresent {
        var _ := ledger.Retire(h.key, h.clean);
      } else if h.probe.deferral == Issued {
        ledger.Save(h.key, false);
        ledger.NoteState(h.key, PendingDownloaded);
      }
    }

    method HealFlagged(heals: seq<HealInput>)
      modifies ledger
      ensures ledger.View() == HealAll(old(ledger.View()), heals)
    {
      for i := 0 to |heals|
        invariant ledger.View() == HealAll(old(ledger.View()), heals[..i])
      {
        assert heals[..i + 1][..i] == heals[..i];
        HealOne(heals[i]);
      }
      assert heals[..|heals|] == heals;
    }

    /** The one-cycle check over the carried-over records, listed in store order. */
    method CheckOnce(order: seq<string>, start: real, polls: seq<PollInput>, bars: seq<ProgressInput>)
      returns (results: seq<ResultRow>)
      requires |order| <= |polls| && |order| <= |bars|
      modifies ledger
      ensures
        var end := Check(cfg, Pass(Working(order, start), [], old(ledger.View())), polls, bars);
        results == end.results && ledger.View() == end.books
    {
      var rows: seq<MonitorRow> := [];
      for i := 0 to |order|
        invariant |rows| == i && fresh(rows)
        invariant forall j :: 0 <= j < i ==> rows[j].clock == null && rows[j].Entry() == Working(order, start)[j]
        invariant forall j, k :: 0 <= j < k < i ==> rows[j] != rows[k]
        invariant unchanged(ledger)
      {
        var row := new MonitorRow(order[i], true, start);
        rows := rows + [row];
      }
      var pass := new MonitorPass(cfg, ledger, rows);
      assert pass.Entries() == Working(order, start);
      pass.RunCheck(polls, bars);
      results := pass.results;
    }

    /** `WaitResult.carried_over_imported`. */
    method CarriedOverImported(results: seq<ResultRow>) returns (count: nat)
      requires forall i, j :: 0 <= i < j < |results| ==> results[i].key != results[j].key
      ensures count == |ImportedByCheck(results)|
    {
      count := 0;
      for i := 0 to |results|
        invariant count == |ImportedByCheck(results[..i])|
      {
        var r := results[i];
        assert results[..i + 1] == results[..i] + [r];
        if r.carriedOver && r.outcome == Imported {
          assert ImportedByCheck(results[..i + 1]) == ImportedByCheck(results[..i]) + {r.key};
          count := count + 1;
        } else {
          assert ImportedByCheck(results[..i + 1]) == ImportedByCheck(results[..i]);
        }
      }
      assert results[..|results|] == results;
    }

    /** The states this run observed as imported. */
    method CountImportedStates() returns (count: nat)
      ensures count == |ImportedByStates(ledger.View())|
    {
      count := 0;
      var todo := ledger.states.Keys;
      while todo != {}
        invariant todo <= ledger.states.Keys
        invariant count == |ImportedByStates(ledger.View()) - todo|
        decreases |todo|
      {
        var k :| k in todo;
        Uncovered(ImportedByStates(ledger.View()), todo, k);
        if ledger.states[k] == PendingImported {
          count := count + 1;
        }
        todo := todo - {k};
      }
      assert ImportedByStates(ledger.View()) - todo == ImportedByStates(ledger.View());
    }

    /** The counter stored record `k` adds to, if any. */
    method TallyBucket(k: string) returns (bucket: Option<PendingState>)
      requires k in ledger.store
      ensures bucket == Some(PendingQueued) <==> k in TallyQueued(ledger.View())
      ensures bucket == Some(PendingDownloaded) <==> k in TallyDownloaded(ledger.View())
    {
      if k in ledger.grabbed || ledger.store[k] {
        return None;
      }
      return Some(if k in ledger.states then ledger.states[k] else PendingQueued);
    }

    /** `tally_carried_over_into_stats`. */
    method Tally() returns (queued: nat, downloaded: nat)
      ensures queued == |TallyQueued(ledger.View())| && downloaded == |TallyDownloaded(ledger.View())|
    {
      queued, downloaded := 0, 0;
      var todo := ledger.store.Keys;
      ghost var q, d := TallyQueued(ledger.View()), TallyDownloaded(ledger.View());
      AllCovered(q, todo);
      AllCovered(d, todo);
      while todo != {}
        invariant todo <= ledger.store.Keys
        invariant queued == |q - todo| && downloaded == |d - todo|
        decreases |todo|
      {
        var k :| k in todo;
        Uncovered(q, todo, k);
        Uncovered(d, todo, k);
        var bucket := TallyBucket(k);
        if bucket == Some(PendingDownloaded) {
          downloaded := downloaded + 1;
        } else if bucket == Some(PendingQueued) {
          queued := queued + 1;
        }
        todo := todo - {k};
      }
      NoneCovered(q);
      NoneCovered(d);
    }

    /** The deferred tail: heal, check, count. Its three totals together never exceed the records it knows. */
    method FinalizeDeferred(heals: seq<HealInput>, order: seq<string>, start: real,
                            polls: seq<PollInput>, bars: seq<ProgressInput>)
      returns (imported: nat, queued: nat, downloaded: nat)
      requires NoneObservedImported(ledger.View()) && HealsOwing(ledger.View(), heals)
      requires ListsWaiting(HealAll(ledger.View(), heals), order) && |order| <= |polls| && |order| <= |bars|
      modifies ledger
      ensures
        var end := CheckedTail(cfg, old(ledger.View()), heals, order, start, polls, bars);
        && ledger.View() == end.books
        && imported == |ImportedByCheck(end.results) + ImportedByStates(end.books)|
        && queued == |TallyQueued(end.books)| && downloaded == |TallyDownloaded(end.books)|
        && imported + queued + downloaded ==
             |ImportedByCheck(end.results) + ImportedByStates(end.books)
              + TallyQueued(end.books) + TallyDownloaded(end.books)|
    {
      CountedAtMostOnce(cfg, ledger.View(), heals, order, start, polls, bars);
      HealFlagged(heals);
      var results := CheckOnce(order, start, polls, bars);
      var byCheck := CarriedOverImported(results);
      var byStates := CountImportedStates();
      imported := byCheck + byStates;
      queued, downloaded := Tally();
    }
  }
}
