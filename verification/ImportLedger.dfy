/** The run's durable books while it imports: the pending-record store with each record's cleanup flag, the
  * run list of fresh grabs, the observed states and the keys kept for cleanup (pending_records.py,
  * `PostImportCleanup` and `ImportWaitManager.resolve_terminal` of import_wait.py).
  */
module ImportLedger {
  import opened WaitRows

  datatype PendingState = PendingQueued | PendingDownloaded | PendingImported | PendingErrored | PendingMissing

  /** The tally bucket of an outcome that leaves its record in the store. */
  function StateForOutcome(outcome: Outcome): PendingState
    requires outcome != Imported && outcome != Missing
  {
    match outcome
    case StillDownloading => PendingQueued
    case DownloadTimedOut => PendingQueued
    case NotChecked => PendingQueued
    case DownloadErrored => PendingErrored
    case _ => PendingDownloaded
  }

  /** `store` maps each record's infohash to its awaiting-cleanup flag. */
  datatype Books = Books(
    store: map<string, bool>,
    grabbed: set<string>,
    states: map<string, PendingState>,
    kept: set<string>)
  {
    function Drop(key: string): Books {
      this.(store := store - {key}, grabbed := grabbed - {key})
    }

    function Save(key: string, flagged: bool): Books {
      this.(store := store[key := flagged])
    }

    /** Both cleanup effects ran: `clean` drops the record, a failed effect keeps it flagged. */
    function Retire(key: string, clean: bool): Books {
      if clean then Drop(key) else Save(key, true).(kept := kept + {key})
    }

    function Fold(key: string, state: PendingState): Books {
      this.(states := states[key := state])
    }

    /** One terminal outcome's store effects. */
    function Resolve(key: string, outcome: Outcome, carriedOver: bool, clean: bool): Books {
      if outcome == Imported then Retire(key, clean)
      else if outcome == Missing then Drop(key)
      else if carriedOver then Fold(key, StateForOutcome(outcome))
      else this
    }

    predicate Flagged(key: string) {
      key in store && store[key]
    }

    /** A carried-over record still to import: stored, not flagged, not grabbed this run. */
    predicate Waiting(key: string) {
      key in store && !store[key] && key !in grabbed
    }
  }

  class Ledger {
    var store: map<string, bool>
    var grabbed: set<string>
    var states: map<string, PendingState>
    var kept: set<string>

    function View(): Books
      reads this
    {
      Books(store, grabbed, states, kept)
    }

    constructor (store: map<string, bool>, grabbed: set<string>, states: map<string, PendingState>)
      ensures View() == Books(store, grabbed, states, {})
    {
      this.store, this.grabbed, this.states, this.kept := store, grabbed, states, {};
    }

    method Drop(key: string)
      modifies this
      ensures View() == old(View()).Drop(key)
    {
      store := store - {key};
      grabbed := grabbed - {key};
    }

    method Save(key: string, flagged: bool)
      modifies this
      ensures View() == old(View()).Save(key, flagged)
    {
      store := store[key := flagged];
    }

    /** Effects first, drop last: `clean` is whether neither effect failed. */
    method Retire(key: string, clean: bool) returns (dropped: bool)
      modifies this
      ensures View() == old(View()).Retire(key, clean) && dropped == clean
    {
      if !clean {
        Save(key, true);
        kept := kept + {key};
        return false;
      }
      Drop(key);
      return true;
    }

    method NoteState(key: string, state: PendingState)
      modifies this
      ensures View() == old(View()).Fold(key, state)
    {
      states := states[key := state];
    }

    method Resolve(key: string, outcome: Outcome, carriedOver: bool, clean: bool)
      modifies this
      ensures View() == old(View()).Resolve(key, outcome, carriedOver, clean)
    {
      if outcome == Imported {
        var _ := Retire(key, clean);
      } else if outcome == Missing {
        Drop(key);
      } else if carriedOver {
        NoteState(key, StateForOutcome(outcome));
      }
    }
  }
}
