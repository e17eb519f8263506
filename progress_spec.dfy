/**
 * The polling state machine of `trackProgress`, as pure functions over an
 * abstract sequence of observations. One observation is one pass of the
 * `while (!finishDownload)` loop (the rows of a query cursor, or the query
 * throwing) or the stall watchdog firing. The state holds the loop's three
 * variables, whether the watchdog is still armed, how many times the
 * download was removed, and every event sent to `notifyProgress`.
 */
module ProgressSpec {
  import opened Wrappers
  import opened JvmArith
  import Reasons

  // Values of DownloadManager.COLUMN_STATUS
  const STATUS_PENDING: int := 1
  const STATUS_RUNNING: int := 2
  const STATUS_PAUSED: int := 4
  const STATUS_SUCCESSFUL: int := 8
  const STATUS_FAILED: int := 16

  // The "status" entry of an emitted event
  const EVENT_COMPLETE: int := 0
  const EVENT_RUNNING: int := 1
  const EVENT_PENDING: int := 2
  const EVENT_PAUSED: int := 3
  const EVENT_FAILED: int := 4

  const TIMEOUT_REASON: string := "Download timed out"
  /** The message of the ArithmeticException Android's runtime (ART) raises for an integer division by zero. */
  const DIVISION_BY_ZERO: string := "divide by zero"

  /**
   * One cursor row: the columns the loop reads, and the outcome of posting
   * the completion notification should the row be SUCCESSFUL — `None` when
   * `disableNotificationClick` returns, `Some(text)` when it throws with that
   * text (with no activity attached, reading the `lateinit` property
   * `activity` throws "lateinit property activity has not been initialized").
   */
  datatype Snapshot = Snapshot(status: Int32, reason: Int32, total: Int64, downloaded: Int64, localUri: Option<string>,
                               notificationError: Option<string>)

  datatype Observation =
    | Poll(rows: seq<Snapshot>)              // a query answered; [] when the cursor is null or empty
    | QueryError(message: Option<string>)    // the query threw; the exception's message may be null
    | WatchdogFired                          // the 15-second timer ran out

  /** The map passed to `notifyProgress`, without the download id. */
  datatype Event = Event(progress: Int32, status: int, reason: Option<string>, filePath: Option<string>)

  datatype TrackerState = TrackerState(
    finished: bool,       // finishDownload
    lastProgress: Int32,
    progress: Int32,
    armed: bool,          // the watchdog coroutine is still active
    removals: nat,        // calls to DownloadManager.remove
    events: seq<Event>)

  /** Processing a row either completes or throws out of the loop body. */
  datatype RowOutcome = Continue(state: TrackerState) | Threw(state: TrackerState, message: string)

  /** Sent before the first poll and for every PENDING row. */
  const PENDING_EVENT: Event := Event(0, EVENT_PENDING, None, None)
  const TIMEOUT_EVENT: Event := Event(0, EVENT_FAILED, Some(TIMEOUT_REASON), None)

  function FailureEvent(message: string): Event {
    Event(0, EVENT_FAILED, Some(message), None)
  }

  /** The state once the first event is sent and the watchdog is started. */
  function Initial(): (s: TrackerState)
    ensures !s.finished && s.armed && s.removals == 0 && s.events == [PENDING_EVENT]
    ensures s.progress == 0 && s.lastProgress < 0   // so the first RUNNING percentage in 0..100 is always sent
  {
    TrackerState(false, -1, 0, true, 0, [PENDING_EVENT])
  }

  /**
   * `(downloaded * 100L / total).toInt()` with a positive `total`. For counts
   * the OS can report it is the exact percentage.
   */
  function Percent(downloaded: Int64, total: Int64): (p: Int32)
    requires total > 0
    ensures 0 <= downloaded <= total && total <= LONG_MAX / 100 ==>
      p == downloaded * 100 / total && 0 <= p <= 100
  {
    PercentOfValidCounts(downloaded, total);
    ToInt(LongDiv(WrapLong(downloaded * 100), total))
  }

  /** Where the product cannot wrap, the percentage is the exact quotient, in 0..100. */
  lemma PercentOfValidCounts(downloaded: Int64, total: Int64)
    requires total > 0
    ensures 0 <= downloaded <= total && total <= LONG_MAX / 100 ==>
      var p := ToInt(LongDiv(WrapLong(downloaded * 100), total));
      p == downloaded * 100 / total && 0 <= p <= 100
  {
    if 0 <= downloaded <= total && total <= LONG_MAX / 100 {
      var scaled := downloaded * 100;
      assert 0 <= scaled <= 100 * total <= LONG_MAX;
      assert WrapLong(scaled) == scaled;
      LongDivNonNegative(scaled, total);
      DivBound(scaled, total);
      assert ToInt(scaled / total) == scaled / total;
    }
  }

  lemma DivBound(a: int, t: int)
    requires t > 0 && 0 <= a <= 100 * t
    ensures 0 <= a / t <= 100
  {
  }

  /** `e.message.toString()`: the message, or the text "null" when there is none. */
  function ExceptionText(message: Option<string>): (text: string)
    ensures message.Some? ==> text == message.value
    ensures message.None? ==> text == "null"
  {
    match message
    case Some(text) => text
    case None => "null"
  }

  /** One pass of `while (cursor.moveToNext())`: the `when (status)` block. */
  function RowStep(st: TrackerState, row: Snapshot): (r: RowOutcome)
    ensures Extends(st, r.state) && r.state.removals == st.removals
    ensures |r.state.events| <= |st.events| + 1
    ensures r.Threw? ==> r.state.finished && !r.state.armed
  {
    if row.status == STATUS_SUCCESSFUL then
      var done := st.(progress := 100, finished := true, armed := false,
                      events := st.events + [Event(100, EVENT_COMPLETE, None, row.localUri)]);
      match row.notificationError
      case None => Continue(done)
      case Some(message) => Threw(done, message)
    else if row.status == STATUS_FAILED then
      var reason := Reasons.ConvertReasonString(Some(row.reason));
      Continue(st.(finished := true, armed := false,
                   events := st.events + [Event(0, EVENT_FAILED, reason, None)]))
    else if row.status == STATUS_PAUSED then
      var reason := Reasons.ConvertReasonString(Some(row.reason));
      var stopped := st.(finished := true, armed := false);
      if row.total > 0 then
        var p := Percent(row.downloaded, row.total);
        Continue(stopped.(progress := p, events := st.events + [Event(p, EVENT_PAUSED, reason, None)]))
      else if row.total == 0 then
        Threw(stopped, DIVISION_BY_ZERO)
      else
        Continue(stopped.(events := st.events + [Event(st.progress, EVENT_PAUSED, reason, None)]))
    else if row.status == STATUS_PENDING then
      Continue(st.(events := st.events + [PENDING_EVENT]))
    else if row.status == STATUS_RUNNING then
      if row.total < 0 then Continue(st)
      else
        var p := if row.total != 0 then Percent(row.downloaded, row.total) else st.progress;
        if p != st.lastProgress then
          Continue(st.(armed := false, progress := p, lastProgress := p,
                       events := st.events + [Event(p, EVENT_RUNNING, None, None)]))
        else
          Continue(st.(armed := false, progress := p))
    else
      Continue(st)
  }

  /** All rows of one cursor, stopping at the first exception. */
  function ProcessRows(st: TrackerState, rows: seq<Snapshot>): (r: RowOutcome)
    ensures Extends(st, r.state) && r.state.removals == st.removals
    ensures |r.state.events| <= |st.events| + |rows|
    ensures r.Threw? ==> r.state.finished && !r.state.armed
    decreases |rows|
  {
    if rows == [] then Continue(st)
    else
      match RowStep(st, rows[0])
      case Continue(next) => ProcessRows(next, rows[1..])
      case Threw(next, message) => Threw(next, message)
  }

  /** The `catch (e: Exception)` block: ends polling, cancels the watchdog, sends one failure. */
  function Catch(st: TrackerState, message: string): (r: TrackerState)
    ensures r.finished && !r.armed && Extends(st, r)
    ensures |r.events| == |st.events| + 1 && r.events[|st.events|] == FailureEvent(message)
    ensures r.removals == st.removals && r.progress == st.progress && r.lastProgress == st.lastProgress
  {
    st.(finished := true, armed := false, events := st.events + [FailureEvent(message)])
  }

  /** The watchdog coroutine: acts only while it has not been cancelled. */
  function Watchdog(st: TrackerState): (r: TrackerState)
    ensures !r.armed
    ensures st.armed ==>
      (r.finished && r.removals == st.removals + 1 && Extends(st, r) &&
       |r.events| == |st.events| + 1 && r.events[|st.events|] == TIMEOUT_EVENT)
    ensures !st.armed ==> r == st
  {
    if st.armed then
      st.(finished := true, armed := false, removals := st.removals + 1, events := st.events + [TIMEOUT_EVENT])
    else st
  }

  /** One observation: a pass of the polling loop's body, or the watchdog. */
  function Step(st: TrackerState, o: Observation): (r: TrackerState)
    ensures Extends(st, r)
    ensures r.removals == st.removals + (if o.WatchdogFired? && st.armed then 1 else 0)
    ensures o.QueryError? ==> r.finished && |r.events| == |st.events| + 1
    ensures o.Poll? ==> |r.events| <= |st.events| + |o.rows| + 1
  {
    match o
    case Poll(rows) =>
      (match ProcessRows(st, rows)
       case Continue(next) => next
       case Threw(next, message) => Catch(next, message))
    case QueryError(message) => Catch(st, ExceptionText(message))
    case WatchdogFired => Watchdog(st)
  }

  /** `while (!finishDownload)` over the observations, for as long as they last. */
  function Run(st: TrackerState, obs: seq<Observation>): (r: TrackerState)
    ensures Extends(st, r) && r.removals >= st.removals
    ensures st.finished ==> r == st
    ensures obs == [] ==> r == st
    decreases |obs|
  {
    if st.finished || obs == [] then st else Run(Step(st, obs[0]), obs[1..])
  }

  /** `next` comes later in the same run: no event is taken back and a finished loop stays finished. */
  predicate Extends(st: TrackerState, next: TrackerState) {
    && |st.events| <= |next.events| && next.events[..|st.events|] == st.events
    && (st.finished ==> next.finished)
  }
}
