/** Runs of failing calls to one arr, counted for all its transports together (arr_http.py); times come from a clock. */
module Streaks {
  import opened Wrappers

  /** A warning template and the failure's detail. */
  datatype Key = Key(warn: string, detail: string)

  datatype Streak = Streak(count: nat, firstAt: int, lastWarnedAt: int)

  type Active = map<Key, Streak>

  /** What a failure says: its first warning, a heartbeat re-warning, or a debug line. */
  datatype Voice = Warns | StillFailing(attempt: nat, age: int) | Breadcrumb(attempt: nat)

  /** What a recovery announces. */
  datatype Note = Note(total: nat, age: int)

  function Failed(active: Active, key: Key, now: int, heartbeat: int): Active {
    if key !in active then active[key := Streak(1, now, now)]
    else
      var s := active[key];
      active[key := Streak(s.count + 1, s.firstAt, if now - s.lastWarnedAt >= heartbeat then now else s.lastWarnedAt)]
  }

  function Says(active: Active, key: Key, now: int, heartbeat: int): Voice {
    if key !in active then Warns
    else if now - active[key].lastWarnedAt >= heartbeat then
      StillFailing(active[key].count + 1, now - active[key].firstAt)
    else Breadcrumb(active[key].count + 1)
  }

  function Under(active: Active, warn: string): Active {
    map key | key in active && key.warn == warn :: active[key]
  }

  function Recovered(active: Active, warn: string): Active {
    map key | key in active && key.warn != warn :: active[key]
  }

  /** The failures some streaks hold. */
  ghost function Failures(active: Active): nat {
    if active == map[] then 0
    else
      var key :| key in active;
      active[key].count + Failures(active - {key})
  }

  /** A failure counted is found whichever streak is taken out first. */
  lemma {:induction false} TakeOut(active: Active, key: Key)
    requires key in active
    ensures Failures(active) == active[key].count + Failures(active - {key})
    decreases |active|
  {
    var first :| first in active && Failures(active) == active[first].count + Failures(active - {first});
    if first != key {
      TakeOut(active - {first}, key);
      TakeOut(active - {key}, first);
      assert active - {first} - {key} == active - {key} - {first};
    }
  }

  class FailureStreaks {
    var active: Active

    constructor ()
      ensures active == map[]
    {
      active := map[];
    }

    /** `_fail`: a failure without a template leaves no trace. */
    method Fail(warn: Option<string>, detail: string, now: int, heartbeat: int) returns (voice: Option<Voice>)
      modifies this
      ensures warn.None? ==> voice.None? && active == old(active)
      ensures warn.Some? ==>
        && active == Failed(old(active), Key(warn.value, detail), now, heartbeat)
        && voice == Some(Says(old(active), Key(warn.value, detail), now, heartbeat))
    {
      if warn.None? {
        return None;
      }
      var key := Key(warn.value, detail);
      if key !in active {
        active := active[key := Streak(1, now, now)];
        return Some(Warns);
      }
      var streak := active[key].(count := active[key].count + 1);
      var due := now - streak.lastWarnedAt >= heartbeat;
      if due {
        streak := streak.(lastWarnedAt := now);
      }
      active := active[key := streak];
      voice := Some(if due then StillFailing(streak.count, now - streak.firstAt) else Breadcrumb(streak.count));
    }

    /** `_recover`: the template's streaks are closed and announced as one. */
    method Recover(warn: Option<string>, now: int) returns (note: Option<Note>)
      modifies this
      ensures warn.None? ==> note.None? && active == old(active)
      ensures warn.Some? ==>
        && active == Recovered(old(active), warn.value)
        && (note.Some? <==> Under(old(active), warn.value) != map[])
        && (note.Some? ==>
              && note.value.total == Failures(Under(old(active), warn.value))
              && (exists key ::
                    key in old(active) && key.warn == warn.value && note.value.age == now - old(active)[key].firstAt)
              && (forall key ::
                    key in old(active) && key.warn == warn.value ==> note.value.age >= now - old(active)[key].firstAt))
    {
      if warn.None? || active == map[] {
        return None;
      }
      var ended := Under(active, warn.value);
      active := Recovered(active, warn.value);
      if ended == map[] {
        return None;
      }
      var total, first := Combined(ended);
      assert forall key :: key in old(active) && key.warn == warn.value ==> key in ended && first <= ended[key].firstAt;
      note := Some(Note(total, now - first));
    }

    /** The total and the first failure of some streaks, taken in any order. */
    static method Combined(ended: Active) returns (total: nat, first: int)
      requires ended != map[]
      ensures total == Failures(ended)
      ensures (exists key :: key in ended && ended[key].firstAt == first)
      ensures forall key :: key in ended ==> first <= ended[key].firstAt
    {
      var key := AnyOf(ended.Keys);
      total, first := ended[key].count, ended[key].firstAt;
      var left := ended - {key};
      TakeOut(ended, key);
      while left != map[]
        invariant left.Keys <= ended.Keys && forall k :: k in left ==> left[k] == ended[k]
        invariant total + Failures(left) == Failures(ended)
        invariant exists k :: k in ended && ended[k].firstAt == first
        invariant forall k :: k in ended && k !in left ==> first <= ended[k].firstAt
        decreases |left|
      {
        key := AnyOf(left.Keys);
        TakeOut(left, key);
        total := total + left[key].count;
        if left[key].firstAt < first {
          first := left[key].firstAt;
        }
        left := left - {key};
      }
    }
  }

  // Whole traces.

  datatype Call = FailCall(key: Key, at: int) | RecoverCall(warn: string, at: int)

  /** The ledger with what it said so far: per template the failures its recoveries announced, and for each active
    * streak the times of its visible warnings.
    */
  datatype Run = Run(active: Active, announced: map<string, nat>, warnedAt: map<Key, seq<int>>)

  function Announced(run: Run, warn: string): nat {
    if warn in run.announced then run.announced[warn] else 0
  }

  ghost function Step(run: Run, call: Call, heartbeat: int): Run {
    match call
    case FailCall(key, at) =>
      var voice := Says(run.active, key, at, heartbeat);
      var warned := if key in run.warnedAt then run.warnedAt[key] else [];
      Run(Failed(run.active, key, at, heartbeat), run.announced,
          run.warnedAt[key := if voice.Breadcrumb? then warned else warned + [at]])
    case RecoverCall(warn, at) =>
      Run(Recovered(run.active, warn),
          run.announced[warn := Announced(run, warn) + Failures(Under(run.active, warn))],
          map key | key in run.warnedAt && key.warn != warn :: run.warnedAt[key])
  }

  ghost function After(calls: seq<Call>, heartbeat: int): Run {
    if calls == [] then Run(map[], map[], map[])
    else Step(After(calls[..|calls| - 1], heartbeat), calls[|calls| - 1], heartbeat)
  }

  /** The failures of a template in a trace. */
  function FailuresOf(calls: seq<Call>, warn: string): nat {
    if calls == [] then 0
    else
      var last := calls[|calls| - 1];
      FailuresOf(calls[..|calls| - 1], warn) + (if last.FailCall? && last.key.warn == warn then 1 else 0)
  }

  predicate Monotone(calls: seq<Call>) {
    forall i, j :: 0 <= i < j < |calls| ==> calls[i].at <= calls[j].at
  }

  lemma OneMoreFailure(active: Active, key: Key, now: int, heartbeat: int, warn: string)
    ensures Failures(Under(Failed(active, key, now, heartbeat), warn)) ==
            Failures(Under(active, warn)) + (if key.warn == warn then 1 else 0)
  {
    var before, after := Under(active, warn), Under(Failed(active, key, now, heartbeat), warn);
    if key.warn == warn {
      TakeOut(after, key);
      assert after - {key} == before - {key};
      if key in before {
        TakeOut(before, key);
      } else {
        assert before - {key} == before;
      }
    } else {
      assert before == after;
    }
  }

  /** Conservation: whatever the calls, a template's failures are those its recoveries announced plus those its active
    * streaks still hold.
    */
  lemma {:induction false} FailuresAreConserved(calls: seq<Call>, heartbeat: int, warn: string)
    ensures
      var run := After(calls, heartbeat);
      FailuresOf(calls, warn) == Announced(run, warn) + Failures(Under(run.active, warn))
  {
    if calls == [] {
      assert Under(map[], warn) == map[];
    } else {
      var before, call := After(calls[..|calls| - 1], heartbeat), calls[|calls| - 1];
      FailuresAreConserved(calls[..|calls| - 1], heartbeat, warn);
      match call {
        case FailCall(key, at) => OneMoreFailure(before.active, key, at, heartbeat, warn);
        case RecoverCall(template, at) =>
          var left := Recovered(before.active, template);
          assert Under(left, warn) == if template == warn then map[] else Under(before.active, warn);
      }
    }
  }

  /** The key's failures since its template last recovered, in order. */
  function FailedAt(calls: seq<Call>, key: Key): seq<int> {
    if calls == [] then []
    else
      var before, last := FailedAt(calls[..|calls| - 1], key), calls[|calls| - 1];
      match last
      case FailCall(k, at) => if k == key then before + [at] else before
      case RecoverCall(warn, _) => if warn == key.warn then [] else before
  }

  /** What the ledger holds of a streak: all its failures since the last recovery, and the first of them. */
  lemma {:induction false} StreakIs(calls: seq<Call>, heartbeat: int, key: Key)
    ensures
      var active, failed := After(calls, heartbeat).active, FailedAt(calls, key);
      && (key in active <==> failed != [])
      && (key in active ==> active[key].count == |failed| && active[key].firstAt == failed[0])
  {
    if calls != [] {
      StreakIs(calls[..|calls| - 1], heartbeat, key);
    }
  }

  /** What a failure says after any calls: it warns when it is the streak's first, warns again, with its number and the
    * streak's age, once the heartbeat has passed since the last warning, and else leaves a debug line with its number.
    */
  lemma FailureSays(calls: seq<Call>, heartbeat: int, key: Key, now: int)
    requires Monotone(calls) && (forall i :: 0 <= i < |calls| ==> calls[i].at <= now)
    ensures
      var run, failed := After(calls, heartbeat), FailedAt(calls, key);
      var voice := Says(run.active, key, now, heartbeat);
      if failed == [] then voice == Warns
      else
        && key in run.warnedAt && |run.warnedAt[key]| > 0
        && voice == if now - run.warnedAt[key][|run.warnedAt[key]| - 1] >= heartbeat
                    then StillFailing(|failed| + 1, now - failed[0])
                    else Breadcrumb(|failed| + 1)
  {
    StreakIs(calls, heartbeat, key);
    WarningsAreSpaced(calls, heartbeat, key, now);
  }

  function Times(count: nat, span: int): int {
    if count == 0 then 0 else Times(count - 1, span) + span
  }

  predicate Spaced(times: seq<int>, heartbeat: int) {
    forall i {:trigger times[i]} :: 0 < i < |times| ==> times[i] - times[i - 1] >= heartbeat
  }

  /** What the ledger knows of one streak's visible warnings. */
  ghost predicate WellWarned(run: Run, key: Key, now: int, heartbeat: int) {
    key in run.active ==>
      && key in run.warnedAt && run.warnedAt[key] != []
      && Spaced(run.warnedAt[key], heartbeat)
      && run.warnedAt[key][0] == run.active[key].firstAt
      && run.warnedAt[key][|run.warnedAt[key]| - 1] == run.active[key].lastWarnedAt <= now
  }

  lemma CallKeepsWarned(run: Run, call: Call, heartbeat: int, key: Key, after: Run)
    requires WellWarned(run, key, call.at, heartbeat) && (key in run.warnedAt <==> key in run.active)
    requires after == Step(run, call, heartbeat)
    ensures WellWarned(after, key, call.at, heartbeat) && (key in after.warnedAt <==> key in after.active)
  {
  }

  lemma {:induction false} WarningsAreSpaced(calls: seq<Call>, heartbeat: int, key: Key, now: int)
    requires Monotone(calls) && (forall i :: 0 <= i < |calls| ==> calls[i].at <= now)
    ensures WellWarned(After(calls, heartbeat), key, now, heartbeat)
    ensures key in After(calls, heartbeat).warnedAt <==> key in After(calls, heartbeat).active
  {
    if calls != [] {
      var rest, call := calls[..|calls| - 1], calls[|calls| - 1];
      WarningsAreSpaced(rest, heartbeat, key, call.at);
      CallKeepsWarned(After(rest, heartbeat), call, heartbeat, key, After(calls, heartbeat));
    }
  }

  lemma {:induction false} SpacedTakesTime(times: seq<int>, heartbeat: int)
    requires times != [] && Spaced(times, heartbeat)
    ensures Times(|times| - 1, heartbeat) <= times[|times| - 1] - times[0]
  {
    if |times| > 1 {
      SpacedTakesTime(times[..|times| - 1], heartbeat);
    }
  }

  /** Within one streak the visible warnings after the first take a heartbeat each, so they are at most its age over the
    * heartbeat.
    */
  lemma WarningsAreBounded(calls: seq<Call>, heartbeat: int, key: Key, now: int)
    requires Monotone(calls) && (forall i :: 0 <= i < |calls| ==> calls[i].at <= now)
    requires key in After(calls, heartbeat).active
    ensures
      var run := After(calls, heartbeat);
      && key in run.warnedAt && run.warnedAt[key] != []
      && Times(|run.warnedAt[key]| - 1, heartbeat) <= now - run.active[key].firstAt
  {
    WarningsAreSpaced(calls, heartbeat, key, now);
    SpacedTakesTime(After(calls, heartbeat).warnedAt[key], heartbeat);
  }
}
