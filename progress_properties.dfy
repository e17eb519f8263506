/**
 * What the polling loop guarantees, proved about the functions of
 * ProgressSpec: the effect of each kind of observation, the invariants every
 * run keeps (first event, no repeated RUNNING progress, at most one removal,
 * the watchdog disarmed once finished), and that polling stops for good.
 */
module ProgressProperties {
  import opened Wrappers
  import opened JvmArith
  import opened ProgressSpec
  import Reasons

  // ---------------------------------------------------------------------------
  // Percentages

  /** A fully downloaded file is at 100%. */
  lemma PercentOfComplete(total: Int64)
    requires 0 < total <= LONG_MAX / 100
    ensures Percent(total, total) == 100
  {
    PercentOfValidCounts(total, total);
    HundredTimesOver(total);
  }

  lemma HundredTimesOver(t: int)
    requires t > 0
    ensures (t * 100) / t == 100
  {
  }

  // ---------------------------------------------------------------------------
  // One observation at a time (a cursor holds at most one row for one id)

  /** A cursor with one row is that row's step. */
  lemma SingleRow(st: TrackerState, row: Snapshot)
    ensures ProcessRows(st, [row]) == RowStep(st, row)
  {
  }

  /**
   * RUNNING: with a negative total nothing happens; otherwise the watchdog is
   * disarmed, the percentage is recomputed unless the total is zero, and an
   * event is sent exactly when it differs from the last one sent.
   */
  lemma RunningRow(st: TrackerState, row: Snapshot)
    requires row.status == STATUS_RUNNING
    ensures row.total < 0 ==> Step(st, Poll([row])) == st
    ensures row.total >= 0 ==>
      var next := Step(st, Poll([row]));
      && !next.armed && next.finished == st.finished && next.removals == st.removals
      && next.progress == (if row.total > 0 then Percent(row.downloaded, row.total) else st.progress)
      && (next.progress != st.lastProgress ==>
            next.lastProgress == next.progress &&
            next.events == st.events + [Event(next.progress, EVENT_RUNNING, None, None)])
      && (next.progress == st.lastProgress ==> next.lastProgress == st.lastProgress && next.events == st.events)
  {
    SingleRow(st, row);
  }

  /** PENDING sends `{0, pending}` and keeps polling; an empty cursor changes nothing. */
  lemma PendingRowAndEmptyPoll(st: TrackerState, row: Snapshot)
    requires row.status == STATUS_PENDING
    ensures Step(st, Poll([row])) == st.(events := st.events + [PENDING_EVENT])
    ensures Step(st, Poll([])) == st
  {
    SingleRow(st, row);
  }

  predicate IsTerminalStatus(status: int) {
    status == STATUS_SUCCESSFUL || status == STATUS_FAILED || status == STATUS_PAUSED
  }

  /**
   * SUCCESSFUL, FAILED and PAUSED end polling, disarm the watchdog and send
   * one event. A PAUSED row with a zero total divides by zero; the exception
   * handler then sends a failure instead of the paused event. A SUCCESSFUL
   * row whose notification update throws sends the complete event and then,
   * from the exception handler, a failure as well.
   */
  lemma TerminalRow(st: TrackerState, row: Snapshot)
    requires IsTerminalStatus(row.status)
    ensures
      var next := Step(st, Poll([row]));
      var reason := Reasons.ConvertReasonString(Some(row.reason));
      var complete := Event(100, EVENT_COMPLETE, None, row.localUri);
      && next.finished && !next.armed && next.removals == st.removals
      && (row.status == STATUS_SUCCESSFUL && row.notificationError.None? ==> next.events == st.events + [complete])
      && (row.status == STATUS_SUCCESSFUL && row.notificationError.Some? ==>
            next.events == st.events + [complete, FailureEvent(row.notificationError.value)])
      && (row.status == STATUS_FAILED ==> next.events == st.events + [Event(0, EVENT_FAILED, reason, None)])
      && (row.status == STATUS_PAUSED && row.total > 0 ==>
            next.events == st.events + [Event(Percent(row.downloaded, row.total), EVENT_PAUSED, reason, None)])
      && (row.status == STATUS_PAUSED && row.total < 0 ==>
            next.events == st.events + [Event(st.progress, EVENT_PAUSED, reason, None)])
      && (row.status == STATUS_PAUSED && row.total == 0 ==> next.events == st.events + [FailureEvent(DIVISION_BY_ZERO)])
  {
    SingleRow(st, row);
  }

  /** A failing query ends polling with one failure event carrying the exception text. */
  lemma QueryErrorEndsPolling(st: TrackerState, message: Option<string>)
    ensures
      var next := Step(st, QueryError(message));
      && next.finished && !next.armed && next.removals == st.removals
      && next.events == st.events + [Event(0, EVENT_FAILED, Some(ExceptionText(message)), None)]
  {
  }

  /**
   * The watchdog, while armed, ends polling, sends the time-out failure and
   * removes the download once; once disarmed it does nothing.
   */
  lemma WatchdogEffect(st: TrackerState)
    ensures st.armed ==>
      var next := Step(st, WatchdogFired);
      && next.finished && !next.armed && next.removals == st.removals + 1
      && next.events == st.events + [Event(0, EVENT_FAILED, Some("Download timed out"), None)]
    ensures !st.armed ==> Step(st, WatchdogFired) == st
  {
  }

  // ---------------------------------------------------------------------------
  // Invariants of a run

  /** The progress values of the RUNNING events, in the order they were sent. */
  function RunningProgresses(events: seq<Event>): seq<int>
    decreases |events|
  {
    if events == [] then []
    else
      var last := events[|events| - 1];
      RunningProgresses(events[..|events| - 1]) + (if last.status == EVENT_RUNNING then [last.progress] else [])
  }

  function LastOr(xs: seq<int>, default: int): int {
    if xs == [] then default else xs[|xs| - 1]
  }

  predicate NoRepeatedNeighbours(xs: seq<int>) {
    forall i :: 0 < i < |xs| ==> xs[i - 1] != xs[i]
  }

  lemma RunningProgressesAppend(events: seq<Event>, e: Event)
    ensures RunningProgresses(events + [e]) ==
      RunningProgresses(events) + (if e.status == EVENT_RUNNING then [e.progress] else [])
  {
  }

  /** What holds after every row: also inside a cursor that already ended polling. */
  predicate RowInv(st: TrackerState) {
    && |st.events| >= 1 && st.events[0] == PENDING_EVENT
    && (st.finished ==> !st.armed)
    && st.lastProgress == LastOr(RunningProgresses(st.events), -1)
    && NoRepeatedNeighbours(RunningProgresses(st.events))
  }

  /** What holds between polls. */
  predicate Inv(st: TrackerState) {
    && RowInv(st)
    && st.removals <= 1
    && (st.removals == 1 ==> st.finished && st.events[|st.events| - 1] == TIMEOUT_EVENT)
  }

  lemma InitialInv()
    ensures Inv(Initial())
  {
  }

  lemma RowStepKeepsRowInv(st: TrackerState, row: Snapshot)
    requires RowInv(st)
    ensures RowInv(RowStep(st, row).state)
    ensures RowStep(st, row).state.removals == st.removals
  {
    var next := RowStep(st, row).state;
    if next.events != st.events {
      var e := next.events[|next.events| - 1];
      assert next.events == st.events + [e];
      RunningProgressesAppend(st.events, e);
    }
  }

  lemma {:induction false} ProcessRowsKeepsRowInv(st: TrackerState, rows: seq<Snapshot>)
    requires RowInv(st)
    ensures RowInv(ProcessRows(st, rows).state)
    ensures ProcessRows(st, rows).state.removals == st.removals
    decreases |rows|
  {
    if rows != [] {
      RowStepKeepsRowInv(st, rows[0]);
      match RowStep(st, rows[0])
      case Continue(next) => ProcessRowsKeepsRowInv(next, rows[1..]);
      case Threw(_, _) =>
    }
  }

  lemma CatchKeepsInv(st: TrackerState, message: string)
    requires RowInv(st) && st.removals == 0
    ensures Inv(Catch(st, message))
  {
  }

  lemma WatchdogKeepsInv(st: TrackerState)
    requires Inv(st) && !st.finished
    ensures Inv(Watchdog(st))
  {
  }

  lemma StepKeepsInv(st: TrackerState, o: Observation)
    requires Inv(st) && !st.finished
    ensures Inv(Step(st, o))
  {
    assert st.removals == 0;
    match o
    case Poll(rows) =>
      ProcessRowsKeepsRowInv(st, rows);
      match ProcessRows(st, rows) {
        case Continue(next) =>
        case Threw(next, message) => CatchKeepsInv(next, message);
      }
    case QueryError(message) => CatchKeepsInv(st, ExceptionText(message));
    case WatchdogFired => WatchdogKeepsInv(st);
  }

  lemma {:induction false} RunKeepsInv(st: TrackerState, obs: seq<Observation>)
    requires Inv(st)
    ensures Inv(Run(st, obs))
    decreases |obs|
  {
    if !st.finished && obs != [] {
      StepKeepsInv(st, obs[0]);
      RunKeepsInv(Step(st, obs[0]), obs[1..]);
    }
  }

  /**
   * Whatever the OS reports: the first event is `{0, pending}`, no two
   * successive RUNNING events carry the same progress, the download is
   * removed at most once and only together with the time-out event, and a
   * finished loop leaves no watchdog armed.
   */
  lemma TrackingGuarantees(obs: seq<Observation>)
    ensures
      var r := Run(Initial(), obs);
      && |r.events| >= 1 && r.events[0] == PENDING_EVENT
      && NoRepeatedNeighbours(RunningProgresses(r.events))
      && r.removals <= 1
      && (r.removals == 1 ==> r.events[|r.events| - 1] == TIMEOUT_EVENT)
      && (r.finished ==> !r.armed)
  {
    InitialInv();
    RunKeepsInv(Initial(), obs);
  }

  // ---------------------------------------------------------------------------
  // Polling stops

  /** Once a prefix of the observations has ended the loop, the rest are never looked at. */
  lemma {:induction false} RunStopsWhenFinished(st: TrackerState, obs: seq<Observation>, k: nat)
    requires k <= |obs| && Run(st, obs[..k]).finished
    ensures Run(st, obs) == Run(st, obs[..k])
    decreases k
  {
    if !st.finished {
      assert k > 0;
      assert obs[..k][1..] == obs[1..][..k - 1];
      RunStopsWhenFinished(Step(st, obs[0]), obs[1..], k - 1);
    }
  }

  // ---------------------------------------------------------------------------
  // Runs over counts the OS can report

  /** A row whose counts are meaningful: unknown total, or downloaded within it. */
  predicate ValidRow(row: Snapshot) {
    row.total < 0 || (0 <= row.downloaded <= row.total && row.total <= LONG_MAX / 100)
  }

  predicate ValidObservations(obs: seq<Observation>) {
    forall i, j :: 0 <= i < |obs| && obs[i].Poll? && 0 <= j < |obs[i].rows| ==> ValidRow(obs[i].rows[j])
  }

  /**
   * Between polls: every progress is a percentage, and the watchdog is armed
   * exactly while polling goes on and no RUNNING event has been sent.
   */
  predicate ValidInv(st: TrackerState) {
    && RowInv(st)
    && 0 <= st.progress <= 100
    && (forall i :: 0 <= i < |st.events| ==> 0 <= st.events[i].progress <= 100)
    && (st.armed <==> !st.finished && RunningProgresses(st.events) == [])
  }

  lemma RowStepKeepsValidInv(st: TrackerState, row: Snapshot)
    requires ValidInv(st) && ValidRow(row)
    ensures ValidInv(RowStep(st, row).state)
  {
    RowStepKeepsRowInv(st, row);
    RowStepKeepsPercentages(st, row);
    RowStepKeepsValidArming(st, row);
  }

  /** Every progress a row sets or sends is a percentage. */
  lemma RowStepKeepsPercentages(st: TrackerState, row: Snapshot)
    requires ValidInv(st) && ValidRow(row)
    ensures var next := RowStep(st, row).state;
      && 0 <= next.progress <= 100
      && forall i :: 0 <= i < |next.events| ==> 0 <= next.events[i].progress <= 100
  {
    var next := RowStep(st, row).state;
    if next.events != st.events {
      var e := next.events[|next.events| - 1];
      assert next.events == st.events + [e];
    }
  }

  /** The watchdog stays armed until the first RUNNING event or the end of polling. */
  lemma RowStepKeepsValidArming(st: TrackerState, row: Snapshot)
    requires ValidInv(st) && ValidRow(row)
    ensures var next := RowStep(st, row).state;
      next.armed <==> !next.finished && RunningProgresses(next.events) == []
  {
    RowStepKeepsRowInv(st, row);
    var next := RowStep(st, row).state;
    if row.status == STATUS_RUNNING && row.total >= 0 {
      if RunningProgresses(st.events) == [] {
        assert st.lastProgress == -1;
        assert next.events == st.events + [Event(next.progress, EVENT_RUNNING, None, None)];
      } else {
        assert !st.armed;
      }
      RunningProgressesAppend(st.events, Event(next.progress, EVENT_RUNNING, None, None));
    } else if next.events != st.events {
      var e := next.events[|next.events| - 1];
      assert next.events == st.events + [e];
      RunningProgressesAppend(st.events, e);
    }
  }

  lemma {:induction false} ProcessRowsKeepsValidInv(st: TrackerState, rows: seq<Snapshot>)
    requires ValidInv(st) && forall j :: 0 <= j < |rows| ==> ValidRow(rows[j])
    ensures ValidInv(ProcessRows(st, rows).state)
    decreases |rows|
  {
    if rows != [] {
      RowStepKeepsValidInv(st, rows[0]);
      match RowStep(st, rows[0])
      case Continue(next) => ProcessRowsKeepsValidInv(next, rows[1..]);
      case Threw(_, _) =>
    }
  }

  lemma CatchKeepsValidInv(st: TrackerState, message: string)
    requires ValidInv(st)
    ensures ValidInv(Catch(st, message))
  {
    RunningProgressesAppend(st.events, FailureEvent(message));
  }

  lemma StepKeepsValidInv(st: TrackerState, o: Observation)
    requires ValidInv(st) && !st.finished
    requires o.Poll? ==> forall j :: 0 <= j < |o.rows| ==> ValidRow(o.rows[j])
    ensures ValidInv(Step(st, o))
  {
    match o
    case Poll(rows) =>
      ProcessRowsKeepsValidInv(st, rows);
      match ProcessRows(st, rows) {
        case Continue(_) =>
        case Threw(stopped, message) => CatchKeepsValidInv(stopped, message);
      }
    case QueryError(message) => CatchKeepsValidInv(st, ExceptionText(message));
    case WatchdogFired =>
      if st.armed {
        RunningProgressesAppend(st.events, TIMEOUT_EVENT);
      }
  }

  lemma {:induction false} RunKeepsValidInv(st: TrackerState, obs: seq<Observation>)
    requires ValidInv(st) && ValidObservations(obs)
    ensures ValidInv(Run(st, obs))
    decreases |obs|
  {
    if !st.finished && obs != [] {
      StepKeepsValidInv(st, obs[0]);
      assert ValidObservations(obs[1..]) by {
        forall i, j | 0 <= i < |obs[1..]| && obs[1..][i].Poll? && 0 <= j < |obs[1..][i].rows|
          ensures ValidRow(obs[1..][i].rows[j])
        {
          assert obs[1..][i] == obs[i + 1];
        }
      }
      RunKeepsValidInv(Step(st, obs[0]), obs[1..]);
    }
  }

  /**
   * With counts the OS can report, every event carries a percentage in
   * 0..100, and the watchdog can only fire before the first RUNNING event.
   */
  lemma ValidRunGuarantees(obs: seq<Observation>)
    requires ValidObservations(obs)
    ensures
      var r := Run(Initial(), obs);
      && (forall i :: 0 <= i < |r.events| ==> 0 <= r.events[i].progress <= 100)
      && (r.armed <==> !r.finished && RunningProgresses(r.events) == [])
  {
    RunKeepsValidInv(Initial(), obs);
  }

  // ---------------------------------------------------------------------------
  // Worked examples

  function RunningRowOf(downloaded: Int64, total: Int64): Snapshot {
    Snapshot(STATUS_RUNNING, 0, total, downloaded, None, None)
  }

  /**
   * A 1000-byte download reported as running at 0, 250, 250 and 500 bytes and
   * then successful: the percentages 0, 25, 50 are sent once each, then 100
   * with the completed status.
   */
  lemma RunningThenSuccessfulExample(uri: Option<string>)
    ensures
      var obs := [Poll([RunningRowOf(0, 1000)]), Poll([RunningRowOf(250, 1000)]), Poll([RunningRowOf(250, 1000)]),
                  Poll([RunningRowOf(500, 1000)]), Poll([Snapshot(STATUS_SUCCESSFUL, 0, 1000, 1000, uri, None)])];
      var r := Run(Initial(), obs);
      && r.finished && r.removals == 0
      && r.events == [PENDING_EVENT, Event(0, EVENT_RUNNING, None, None), Event(25, EVENT_RUNNING, None, None),
                      Event(50, EVENT_RUNNING, None, None), Event(100, EVENT_COMPLETE, None, uri)]
  {
    var obs := [Poll([RunningRowOf(0, 1000)]), Poll([RunningRowOf(250, 1000)]), Poll([RunningRowOf(250, 1000)]),
                Poll([RunningRowOf(500, 1000)]), Poll([Snapshot(STATUS_SUCCESSFUL, 0, 1000, 1000, uri, None)])];
    PercentOfValidCounts(0, 1000);
    PercentOfValidCounts(250, 1000);
    PercentOfValidCounts(500, 1000);
    var s0 := Initial();
    RunningRow(s0, RunningRowOf(0, 1000));
    var s1 := Step(s0, obs[0]);
    assert s1.events == [PENDING_EVENT, Event(0, EVENT_RUNNING, None, None)] && s1.lastProgress == 0;
    RunningRow(s1, RunningRowOf(250, 1000));
    var s2 := Step(s1, obs[1]);
    assert s2.lastProgress == 25 && s2.progress == 25;
    RunningRow(s2, RunningRowOf(250, 1000));
    var s3 := Step(s2, obs[2]);
    assert s3 == s2;
    RunningRow(s3, RunningRowOf(500, 1000));
    var s4 := Step(s3, obs[3]);
    assert s4.lastProgress == 50 && !s4.finished;
    SingleRow(s4, obs[4].rows[0]);
    var s5 := Step(s4, obs[4]);
    assert s5.finished;
    assert Run(s0, obs) == Run(s1, obs[1..]);
    assert Run(s1, obs[1..]) == Run(s2, obs[2..]);
    assert Run(s2, obs[2..]) == Run(s3, obs[3..]);
    assert Run(s3, obs[3..]) == Run(s4, obs[4..]);
    assert Run(s4, obs[4..]) == s5;
  }

  /** A query that throws straight away ends tracking with one failure carrying its message. */
  lemma QueryErrorExample(message: string, later: seq<Observation>)
    ensures
      var r := Run(Initial(), [QueryError(Some(message))] + later);
      r.finished && r.events == [PENDING_EVENT, Event(0, EVENT_FAILED, Some(message), None)]
  {
  }
}
