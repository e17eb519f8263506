/**
 * `trackProgress` as the imperative loop it is: a tracker object holding the
 * loop's variables, updated in place one cursor row at a time, and the
 * `while (!finishDownload)` loop that drives it. Every method is proved to
 * follow the corresponding function of ProgressSpec.
 */
module Tracker {
  import opened Wrappers
  import opened JvmArith
  import opened ProgressSpec
  import ProgressProperties
  import Reasons

  class ProgressTracker {
    var finishDownload: bool
    var lastProgress: Int32
    var progress: Int32
    var watchdogArmed: bool
    var removals: nat
    var events: seq<Event>   // everything sent to notifyProgress so far

    function State(): TrackerState
      reads this
    {
      TrackerState(finishDownload, lastProgress, progress, watchdogArmed, removals, events)
    }

    /** Sends `{0, pending}` and starts the watchdog. */
    constructor ()
      ensures State() == Initial()
    {
      finishDownload := false;
      lastProgress := -1;
      progress := 0;
      events := [PENDING_EVENT];
      watchdogArmed := true;
      removals := 0;
    }

    /** The `when (status)` block for one cursor row; returns the message of an exception it raises. */
    method HandleRow(row: Snapshot) returns (thrown: Option<string>)
      modifies this
      ensures RowStep(old(State()), row) ==
        if thrown.Some? then Threw(State(), thrown.value) else Continue(State())
    {
      thrown := None;
      if row.status == STATUS_SUCCESSFUL {
        progress := 100;
        finishDownload := true;
        watchdogArmed := false;
        events := events + [Event(progress, EVENT_COMPLETE, None, row.localUri)];
        // The notification update that follows the complete event may throw.
        thrown := row.notificationError;
      } else if row.status == STATUS_FAILED {
        finishDownload := true;
        watchdogArmed := false;
        var reason := Reasons.ConvertReasonString(Some(row.reason));
        events := events + [Event(0, EVENT_FAILED, reason, None)];
      } else if row.status == STATUS_PAUSED {
        finishDownload := true;
        watchdogArmed := false;
        var reason := Reasons.ConvertReasonString(Some(row.reason));
        if row.total >= 0 {
          if row.total == 0 {
            thrown := Some(DIVISION_BY_ZERO);
            return;
          }
          progress := Percent(row.downloaded, row.total);
          events := events + [Event(progress, EVENT_PAUSED, reason, None)];
        } else {
          events := events + [Event(progress, EVENT_PAUSED, reason, None)];
        }
      } else if row.status == STATUS_PENDING {
        events := events + [PENDING_EVENT];
      } else if row.status == STATUS_RUNNING {
        if row.total >= 0 {
          watchdogArmed := false;
          if row.total != 0 {
            progress := Percent(row.downloaded, row.total);
          }
          if progress != lastProgress {
            lastProgress := progress;
            events := events + [Event(progress, EVENT_RUNNING, None, None)];
          }
        }
      }
    }

    /** The `catch (e: Exception)` block. */
    method HandleException(message: string)
      modifies this
      ensures State() == Catch(old(State()), message)
    {
      finishDownload := true;
      watchdogArmed := false;
      events := events + [FailureEvent(message)];
    }

    /** One pass of the polling loop's body: every row of the cursor, or the exception. */
    method PollOnce(rows: seq<Snapshot>)
      modifies this
      ensures State() == Step(old(State()), Poll(rows))
    {
      var i := 0;
      var thrown: Option<string> := None;
      while i < |rows| && thrown.None?
        invariant 0 <= i <= |rows|
        invariant thrown.None? ==> ProcessRows(old(State()), rows) == ProcessRows(State(), rows[i..])
        invariant thrown.Some? ==> ProcessRows(old(State()), rows) == Threw(State(), thrown.value)
        decreases |rows| - i
      {
        assert rows[i..][1..] == rows[i + 1..];
        thrown := HandleRow(rows[i]);
        i := i + 1;
      }
      if thrown.Some? {
        HandleException(thrown.value);
      }
    }

    /** The timer coroutine after its 15-second sleep, if it was not cancelled. */
    method WatchdogFires()
      modifies this
      ensures State() == Step(old(State()), WatchdogFired)
    {
      if watchdogArmed {
        finishDownload := true;
        events := events + [TIMEOUT_EVENT];
        removals := removals + 1;
        watchdogArmed := false;
      }
    }

    method Observe(o: Observation)
      modifies this
      ensures State() == Step(old(State()), o)
    {
      match o
      case Poll(rows) => PollOnce(rows);
      case QueryError(message) => HandleException(ExceptionText(message));
      case WatchdogFired => WatchdogFires();
    }
  }

  /**
   * Tracks one download over the given observations until a terminal state
   * (or until the observations run out), and returns the events sent and the
   * number of removals. The result is that of `Run`, so the guarantees proved
   * about `Run` hold of it: the first event is `{0, pending}`, no two
   * successive RUNNING events repeat a progress, and the download is removed
   * at most once, only together with the time-out event.
   */
  method TrackProgress(observations: seq<Observation>) returns (emitted: seq<Event>, removed: nat)
    ensures emitted == Run(Initial(), observations).events
    ensures removed == Run(Initial(), observations).removals
    ensures |emitted| >= 1 && emitted[0] == PENDING_EVENT
    ensures ProgressProperties.NoRepeatedNeighbours(ProgressProperties.RunningProgresses(emitted))
    ensures removed <= 1 && (removed == 1 ==> emitted[|emitted| - 1] == TIMEOUT_EVENT)
  {
    var tracker := new ProgressTracker();
    var i := 0;
    while !tracker.finishDownload && i < |observations|
      invariant 0 <= i <= |observations|
      invariant Run(tracker.State(), observations[i..]) == Run(Initial(), observations)
      decreases |observations| - i
    {
      assert observations[i..][1..] == observations[i + 1..];
      tracker.Observe(observations[i]);
      i := i + 1;
    }
    emitted := tracker.events;
    removed := tracker.removals;
    ProgressProperties.TrackingGuarantees(observations);
  }
}
