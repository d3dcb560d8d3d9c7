/** The stall clock of one importing torrent (`_ReadyClock` of import_wait.py).
  *
  * `ClockState` is the clock as a value, with one function per operation; `ReadyClock` is the object the
  * monitor updates in place, each method proved to make exactly that step.
  */
module ReadyClocks {
  import opened Wrappers

  /** What of Sonarr's, if anything, held a poll up. */
  datatype Deferral = NoDeferral | Issued | ImportInFlight | Busy

  /** Deferral credit is capped at this many ready timeouts per row. */
  const DEFERRAL_CREDIT_CAP_MULT := 6.0

  function Min(a: real, b: real): real {
    if a <= b then a else b
  }

  datatype ClockState = ClockState(
    timeout: real,
    anchor: real,
    started: real,
    seen: Option<int>,
    pollGap: real,
    pollAt: Option<real>,
    credited: real,
    issuedCredited: bool)
  {
    function Cap(): real {
      timeout * DEFERRAL_CREDIT_CAP_MULT
    }

    function MarkPoll(now: real): ClockState {
      this.(pollGap := if pollAt.Some? then now - pollAt.value else 0.0, pollAt := Some(now))
    }

    predicate AtDeadline(now: real) {
      now - anchor >= timeout
    }

    /** Whether a deferral still earns credit: below the cap, and for a command just issued only the first time. */
    predicate CanDefer(reason: Deferral) {
      !(reason == Issued && issuedCredited) && credited < Cap()
    }

    function CreditDeferral(now: real, reason: Deferral): ClockState {
      var credit := Min(pollGap, Cap() - credited);
      this.(issuedCredited := issuedCredited || reason == Issued,
            credited := credited + credit,
            anchor := Min(anchor + credit, now))
    }

    /** Whether this reading is another file landed: a determinate done-count above every one seen before. */
    predicate Lands(done: int, total: int) {
      total > 0 && seen.Some? && done > seen.value
    }

    function NoteProgress(done: int, total: int, now: real): ClockState {
      if total <= 0 then
        this
      else
        var noted := this.(seen := Some(if seen.Some? && seen.value > done then seen.value else done));
        if Lands(done, total) then noted.(anchor := now) else noted
    }
  }

  function NewClock(timeout: real, now: real): ClockState {
    ClockState(timeout, now, now, None, 0.0, None, 0.0, false)
  }

  class ReadyClock {
    const timeout: real
    const started: real
    var anchor: real
    var seen: Option<int>
    var pollGap: real
    var pollAt: Option<real>
    var credited: real
    var issuedCredited: bool

    function State(): ClockState
      reads this
    {
      ClockState(timeout, anchor, started, seen, pollGap, pollAt, credited, issuedCredited)
    }

    constructor (timeout: real, now: real)
      ensures State() == NewClock(timeout, now)
    {
      this.timeout, this.started := timeout, now;
      anchor, seen, pollGap, pollAt := now, None, 0.0, None;
      credited, issuedCredited := 0.0, false;
    }

    method MarkPoll(now: real)
      modifies this
      ensures State() == old(State()).MarkPoll(now)
    {
      pollGap := if pollAt.Some? then now - pollAt.value else 0.0;
      pollAt := Some(now);
    }

    method CanDefer(reason: Deferral) returns (earns: bool)
      ensures earns == State().CanDefer(reason)
    {
      if reason == Issued && issuedCredited {
        return false;
      }
      return credited < timeout * DEFERRAL_CREDIT_CAP_MULT;
    }

    method CreditDeferral(now: real, reason: Deferral)
      modifies this
      ensures State() == old(State()).CreditDeferral(now, reason)
    {
      if reason == Issued {
        issuedCredited := true;
      }
      var credit := Min(pollGap, timeout * DEFERRAL_CREDIT_CAP_MULT - credited);
      credited := credited + credit;
      anchor := Min(anchor + credit, now);
    }

    method NoteProgress(done: int, total: int, now: real) returns (landed: bool)
      modifies this
      ensures landed == old(State()).Lands(done, total)
      ensures State() == old(State()).NoteProgress(done, total, now)
    {
      if total <= 0 {
        return false;
      }
      var last := seen;
      seen := Some(if last.Some? && last.value > done then last.value else done);
      if last.None? || done <= last.value {
        return false;
      }
      anchor := now;
      return true;
    }
  }
}
