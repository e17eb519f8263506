# native_flutter_downloader: a verified model of the progress tracker

The plugin hands downloads to Android's `DownloadManager` and relays their
state to the Flutter side as `notifyProgress` events
`{downloadId, progress, status, reason?, filePath?}` with status
0 = complete, 1 = running, 2 = pending, 3 = paused, 4 = failed.
Three parts of `NativeFlutterDownloaderPlugin.kt` hold real logic, and this
project models them in Dafny:

- **`trackProgress`**, the polling loop. It sends `{0, pending}` and starts a
  15-second watchdog. It then queries the download once per pass of
  `while (!finishDownload)` and turns each cursor row into at most one event.
  - SUCCESSFUL, FAILED and PAUSED are terminal.
  - RUNNING events are sent only when the percentage changes.
  - A query exception becomes a failure event.
  - The watchdog, unless a RUNNING row, a terminal status or the exception
    handler cancelled it first, sends "Download timed out" and removes the
    download.

  The OS is replaced by a sequence of observations: `Poll(rows)` for an
  answered query, `QueryError(message)` for a query that threw, and
  `WatchdogFired`. A row also says whether the notification update that
  follows a completed download (`disableNotificationClick`) throws, and with
  what message. `ProgressSpec` gives the loop as pure functions (`RowStep`,
  `ProcessRows`, `Step`, `Run`). `Tracker.ProgressTracker` is the same loop
  as an object whose fields the methods update in place, and each method is
  proved to follow the matching function. `Tracker.TrackProgress` runs the
  loop and is proved equal to `Run`. `ProgressProperties` proves what the
  loop guarantees.
- **`convertReasonString`** (`Reasons`). It maps a reason code to the text
  sent with failed and paused events. It is proved injective through an
  inverse, `ReasonCodeOf`.
- **The fallback file name** in `download` (`FileNames`). With no
  `fileName`, each character of ``#%&{}\<>*?/$!'":@+`|=`` in the URL's last
  path segment becomes `-`.

The arithmetic is Kotlin's, written out in `JvmArith`:
`(downloaded * 100L / total).toInt()` wraps the product to 64 bits, divides
toward zero and keeps the low 32 bits. The status, reason and error constants
are the values Android's `DownloadManager` defines; the source names them but
does not define them. The hexadecimal codes inside the messages repeat the
reason values.

Behaviour as written, where it differs from what one would expect from a
description of the loop:
- A PAUSED row with `total == 0` passes the `total >= 0` guard and divides
  by zero. Android's runtime throws `ArithmeticException("divide by zero")`,
  which the loop's handler catches; it sends `{0, failed, "divide by zero"}`
  instead of a paused event (`TerminalRow`).
- A SUCCESSFUL row sends the complete event and then calls
  `disableNotificationClick`. If that throws (for example because the
  `lateinit` property `activity` was never set), the handler sends a failure
  as well, so two terminal events reach the Flutter side: complete, then
  failed (`TerminalRow`).
- The watchdog is cancelled only by a terminal status, by a RUNNING row with
  `total >= 0`, or by the exception handler. A RUNNING row with an unknown
  (negative) total leaves it armed, and so does a PENDING row.
- The rows of one cursor are all processed, even after one of them has set
  `finishDownload`. A query filtered by one id returns at most one row, so
  the single-row lemmas describe the real case.
- A null exception message is reported as the text `"null"`, as
  `e.message.toString()` gives. The same applies to the file name when both
  `fileName` and the last path segment are null.

## Model

| member | source | states |
|---|---|---|
| JvmArith.WrapLong | android/src/main/kotlin/org/cracktech/native_flutter_downloader/NativeFlutterDownloaderPlugin.kt:308 | `downloaded * 100L` is the exact product modulo 2^64, and equals it when it fits in a `Long` |
| JvmArith.ToInt | android/src/main/kotlin/org/cracktech/native_flutter_downloader/NativeFlutterDownloaderPlugin.kt:308 | `.toInt()` agrees with its argument modulo 2^32 and keeps any value that fits in an `Int` |
| JvmArith.LongDiv | android/src/main/kotlin/org/cracktech/native_flutter_downloader/NativeFlutterDownloaderPlugin.kt:308 | `Long` division truncates toward zero: the remainder lies in [0, total) for a non-negative dividend and in (-total, 0] for a negative one |
| JvmArith.LongDivNonNegative | android/src/main/kotlin/org/cracktech/native_flutter_downloader/NativeFlutterDownloaderPlugin.kt:308 | for non-negative counts, truncating division is ordinary division |
| Decimal.IntToString | android/src/main/kotlin/org/cracktech/native_flutter_downloader/NativeFlutterDownloaderPlugin.kt:368 | `$reason` is non-empty, starts with `-` exactly for negative codes, is otherwise made of decimal digits, and is canonical: its first digit is `0` only for zero itself |
| Decimal.NatToString | android/src/main/kotlin/org/cracktech/native_flutter_downloader/NativeFlutterDownloaderPlugin.kt:368 | decimal digits only, with no leading zero except for 0 itself |
| Decimal.ParseIntToString | android/src/main/kotlin/org/cracktech/native_flutter_downloader/NativeFlutterDownloaderPlugin.kt:368 | reading the decimal rendering back gives the code (round trip) |
| Decimal.IntToStringInjective | android/src/main/kotlin/org/cracktech/native_flutter_downloader/NativeFlutterDownloaderPlugin.kt:368 | different codes are rendered as different text |
| Decimal.NatToStringParseNat | android/src/main/kotlin/org/cracktech/native_flutter_downloader/NativeFlutterDownloaderPlugin.kt:368 | a digit string without a leading zero is the rendering of its value |
| Decimal.CanonicalIsRendering | android/src/main/kotlin/org/cracktech/native_flutter_downloader/NativeFlutterDownloaderPlugin.kt:368 | every canonical decimal text is the rendering of the number it reads as, so the canonical texts are exactly the renderings |
| Reasons.ConvertReasonString | android/src/main/kotlin/org/cracktech/native_flutter_downloader/NativeFlutterDownloaderPlugin.kt:352-370 | null maps to null and a code to a message; the 13 known codes get their "ANDROID…" message; any other code gets `HTTP_ERROR(<code>)`, whose inner text is canonical decimal and reads back as the code |
| Reasons.ReasonRoundTrip | android/src/main/kotlin/org/cracktech/native_flutter_downloader/NativeFlutterDownloaderPlugin.kt:352-370 | every reported reason message decodes back to the code it came from |
| Reasons.ErrorTagsSpellCodes | android/src/main/kotlin/org/cracktech/native_flutter_downloader/NativeFlutterDownloaderPlugin.kt:354-362 | the tag `ANDROID_ERROR(0x…)` of each error message spells, in hexadecimal, the error code the message is chosen for |
| Reasons.PausedTagsSpellCodes | android/src/main/kotlin/org/cracktech/native_flutter_downloader/NativeFlutterDownloaderPlugin.kt:363-366 | the tag `ANDROID(0x…)` of each paused message spells, in hexadecimal, the paused code the message is chosen for |
| Reasons.TagCarriesCode | android/src/main/kotlin/org/cracktech/native_flutter_downloader/NativeFlutterDownloaderPlugin.kt:352-370 | a message that starts with a well-formed tag decodes to the code the tag spells |
| Reasons.ErrorReasonRoundTrip | android/src/main/kotlin/org/cracktech/native_flutter_downloader/NativeFlutterDownloaderPlugin.kt:354-362 | each error message decodes, through its hexadecimal tag, to its code |
| Reasons.PausedReasonRoundTrip | android/src/main/kotlin/org/cracktech/native_flutter_downloader/NativeFlutterDownloaderPlugin.kt:363-366 | each paused message decodes, through its hexadecimal tag, to its code |
| Reasons.ReasonMessagesDistinct | android/src/main/kotlin/org/cracktech/native_flutter_downloader/NativeFlutterDownloaderPlugin.kt:352-370 | two different codes never produce the same message |
| FileNames.SanitizeSegment | android/src/main/kotlin/org/cracktech/native_flutter_downloader/NativeFlutterDownloaderPlugin.kt:170-172 | the replacement keeps the length, turns every forbidden character into `-`, keeps every other character, and leaves no forbidden character |
| FileNames.DestinationName | android/src/main/kotlin/org/cracktech/native_flutter_downloader/NativeFlutterDownloaderPlugin.kt:170-172 | a given `fileName` is used verbatim; otherwise the last path segment with every forbidden character replaced by `-` and every other character kept (same length, clean); with neither, the text "null" |
| FileNames.SanitizeIdempotent | android/src/main/kotlin/org/cracktech/native_flutter_downloader/NativeFlutterDownloaderPlugin.kt:170-172 | sanitising twice gives the same name as sanitising once |
| FileNames.CleanIsFixedPoint | android/src/main/kotlin/org/cracktech/native_flutter_downloader/NativeFlutterDownloaderPlugin.kt:170-172 | a segment is left unchanged exactly when it has no forbidden character |
| ProgressSpec.PercentOfValidCounts | android/src/main/kotlin/org/cracktech/native_flutter_downloader/NativeFlutterDownloaderPlugin.kt:306-309 | for 0 ≤ downloaded ≤ total (total > 0, no overflow) the percentage is exactly downloaded·100 div total and lies in 0..100 |
| ProgressProperties.PercentOfComplete | android/src/main/kotlin/org/cracktech/native_flutter_downloader/NativeFlutterDownloaderPlugin.kt:306-309 | all bytes downloaded gives 100 |
| ProgressSpec.Percent | android/src/main/kotlin/org/cracktech/native_flutter_downloader/NativeFlutterDownloaderPlugin.kt:308 | `(downloaded * 100L / total).toInt()`; for 0 ≤ downloaded ≤ total without overflow it is exactly downloaded·100 div total, within 0..100 |
| ProgressSpec.ExceptionText | android/src/main/kotlin/org/cracktech/native_flutter_downloader/NativeFlutterDownloaderPlugin.kt:329 | `e.message.toString()`: the message itself, or "null" when there is none |
| ProgressSpec.Initial | android/src/main/kotlin/org/cracktech/native_flutter_downloader/NativeFlutterDownloaderPlugin.kt:189-194 | before the loop: not finished, last progress below any percentage, progress 0, watchdog armed, no removal, `{0, pending}` sent |
| ProgressSpec.RowStep | android/src/main/kotlin/org/cracktech/native_flutter_downloader/NativeFlutterDownloaderPlugin.kt:227-321 | one row only appends to the events (at most one), never un-finishes the loop and never removes the download; when the row throws, polling has ended and the watchdog is cancelled |
| ProgressSpec.ProcessRows | android/src/main/kotlin/org/cracktech/native_flutter_downloader/NativeFlutterDownloaderPlugin.kt:226-322 | the rows of a cursor append at most one event each, never un-finish the loop and never remove the download; an exception leaves the watchdog cancelled |
| ProgressSpec.Catch | android/src/main/kotlin/org/cracktech/native_flutter_downloader/NativeFlutterDownloaderPlugin.kt:325-340 | the handler ends polling, cancels the watchdog and appends exactly one failure with the message, changing nothing else |
| ProgressSpec.Watchdog | android/src/main/kotlin/org/cracktech/native_flutter_downloader/NativeFlutterDownloaderPlugin.kt:195-207 | an armed watchdog ends polling, removes the download once and appends the time-out; a cancelled one changes nothing; afterwards it is never armed |
| ProgressSpec.Step | android/src/main/kotlin/org/cracktech/native_flutter_downloader/NativeFlutterDownloaderPlugin.kt:212-343 | a pass only appends events, removes the download only when an armed watchdog fires, and always ends polling on a query exception |
| ProgressSpec.Run | android/src/main/kotlin/org/cracktech/native_flutter_downloader/NativeFlutterDownloaderPlugin.kt:209-348 | later passes only append events and never un-finish the loop or undo a removal; a finished loop is left as it is |
| ProgressProperties.SingleRow | android/src/main/kotlin/org/cracktech/native_flutter_downloader/NativeFlutterDownloaderPlugin.kt:226-322 | a cursor with one row is exactly that row's step |
| ProgressProperties.RunningRow | android/src/main/kotlin/org/cracktech/native_flutter_downloader/NativeFlutterDownloaderPlugin.kt:302-320 | RUNNING with total < 0 changes nothing; otherwise it disarms the watchdog, recomputes the percentage when total > 0 (keeps it when total = 0), and sends one RUNNING event exactly when the value differs from the last one sent, which then becomes the last |
| ProgressProperties.PendingRowAndEmptyPoll | android/src/main/kotlin/org/cracktech/native_flutter_downloader/NativeFlutterDownloaderPlugin.kt:293-301 | PENDING appends `{0, pending}` and changes nothing else, so polling goes on; an empty cursor changes nothing |
| ProgressProperties.TerminalRow | android/src/main/kotlin/org/cracktech/native_flutter_downloader/NativeFlutterDownloaderPlugin.kt:229-292 | SUCCESSFUL, FAILED and PAUSED end polling and disarm the watchdog. They append `{100, complete, filePath}`, `{0, failed, reason}`, `{percent or previous progress, paused, reason}`, or, for PAUSED with total 0, `{0, failed, "divide by zero"}`. A SUCCESSFUL row whose notification update throws appends the complete event followed by `{0, failed, message}` |
| ProgressProperties.QueryErrorEndsPolling | android/src/main/kotlin/org/cracktech/native_flutter_downloader/NativeFlutterDownloaderPlugin.kt:325-340 | a query exception ends polling, disarms the watchdog and appends exactly one `{0, failed, message}` |
| ProgressProperties.WatchdogEffect | android/src/main/kotlin/org/cracktech/native_flutter_downloader/NativeFlutterDownloaderPlugin.kt:195-207 | an armed watchdog ends polling, appends `{0, failed, "Download timed out"}` and removes the download once; a cancelled one does nothing |
| ProgressProperties.RunningProgressesAppend | android/src/main/kotlin/org/cracktech/native_flutter_downloader/NativeFlutterDownloaderPlugin.kt:310-318 | only a RUNNING event extends the list of sent running percentages |
| ProgressProperties.InitialInv | android/src/main/kotlin/org/cracktech/native_flutter_downloader/NativeFlutterDownloaderPlugin.kt:189-207 | the starting state (`{0, pending}` sent, last progress -1, watchdog armed) satisfies the loop invariant |
| ProgressProperties.RowStepKeepsRowInv | android/src/main/kotlin/org/cracktech/native_flutter_downloader/NativeFlutterDownloaderPlugin.kt:228-321 | every row keeps: the first event is pending, finished implies disarmed, last progress equals the last RUNNING percentage sent, no two successive RUNNING percentages are equal; and no row removes the download |
| ProgressProperties.ProcessRowsKeepsRowInv | android/src/main/kotlin/org/cracktech/native_flutter_downloader/NativeFlutterDownloaderPlugin.kt:226-322 | the same for all rows of a cursor |
| ProgressProperties.CatchKeepsInv | android/src/main/kotlin/org/cracktech/native_flutter_downloader/NativeFlutterDownloaderPlugin.kt:325-340 | the exception handler keeps the loop invariant: one failure event appended, polling ended, watchdog disarmed, no removal |
| ProgressProperties.WatchdogKeepsInv | android/src/main/kotlin/org/cracktech/native_flutter_downloader/NativeFlutterDownloaderPlugin.kt:195-207 | the watchdog keeps the loop invariant: its one removal comes with the time-out as the last event |
| ProgressProperties.StepKeepsInv | android/src/main/kotlin/org/cracktech/native_flutter_downloader/NativeFlutterDownloaderPlugin.kt:209-348 | every pass of the loop, and the watchdog, keep the invariant, including "at most one removal, and only with the time-out as the last event" |
| ProgressProperties.RunKeepsInv | android/src/main/kotlin/org/cracktech/native_flutter_downloader/NativeFlutterDownloaderPlugin.kt:209-348 | the invariant holds after any number of passes |
| ProgressProperties.TrackingGuarantees | android/src/main/kotlin/org/cracktech/native_flutter_downloader/NativeFlutterDownloaderPlugin.kt:187-349 | on any observations: the first event is `{0, pending}`; no two successive RUNNING events carry the same progress; the download is removed at most once, and then the time-out is the last event; a finished loop has no armed watchdog |
| ProgressProperties.RunStopsWhenFinished | android/src/main/kotlin/org/cracktech/native_flutter_downloader/NativeFlutterDownloaderPlugin.kt:209 | once the loop has finished, later observations change nothing |
| ProgressProperties.RowStepKeepsValidInv | android/src/main/kotlin/org/cracktech/native_flutter_downloader/NativeFlutterDownloaderPlugin.kt:228-321 | with valid counts, a row keeps every progress sent within 0..100 |
| ProgressProperties.RowStepKeepsPercentages | android/src/main/kotlin/org/cracktech/native_flutter_downloader/NativeFlutterDownloaderPlugin.kt:228-321 | with valid counts, every progress a row sets or sends is within 0..100 |
| ProgressProperties.RowStepKeepsValidArming | android/src/main/kotlin/org/cracktech/native_flutter_downloader/NativeFlutterDownloaderPlugin.kt:302-320 | with valid counts, the watchdog stays armed exactly until the first RUNNING event or the end of polling |
| ProgressProperties.ProcessRowsKeepsValidInv | android/src/main/kotlin/org/cracktech/native_flutter_downloader/NativeFlutterDownloaderPlugin.kt:226-322 | the same for all rows of a cursor |
| ProgressProperties.CatchKeepsValidInv | android/src/main/kotlin/org/cracktech/native_flutter_downloader/NativeFlutterDownloaderPlugin.kt:325-340 | the failure event of the handler keeps progress within 0..100 |
| ProgressProperties.StepKeepsValidInv | android/src/main/kotlin/org/cracktech/native_flutter_downloader/NativeFlutterDownloaderPlugin.kt:209-348 | with valid counts, every pass of the loop and the watchdog keep the same invariant |
| ProgressProperties.RunKeepsValidInv | android/src/main/kotlin/org/cracktech/native_flutter_downloader/NativeFlutterDownloaderPlugin.kt:209-348 | the same after any number of passes |
| ProgressProperties.ValidRunGuarantees | android/src/main/kotlin/org/cracktech/native_flutter_downloader/NativeFlutterDownloaderPlugin.kt:195-320 | with valid counts every event's progress is in 0..100, and the watchdog is armed exactly while polling goes on and no RUNNING event has been sent, so a time-out happens only before any RUNNING event |
| ProgressProperties.RunningThenSuccessfulExample | android/src/main/kotlin/org/cracktech/native_flutter_downloader/NativeFlutterDownloaderPlugin.kt:226-320 | total 1000 and running at 0, 250, 250, 500 bytes, then successful, gives events pending, 0, 25, 50, then 100 complete |
| ProgressProperties.QueryErrorExample | android/src/main/kotlin/org/cracktech/native_flutter_downloader/NativeFlutterDownloaderPlugin.kt:325-340 | a query that throws first ends tracking with exactly pending and one failure carrying the message |
| Tracker.ProgressTracker.constructor | android/src/main/kotlin/org/cracktech/native_flutter_downloader/NativeFlutterDownloaderPlugin.kt:189-207 | the tracker starts in the initial state: not finished, last progress -1, progress 0, watchdog armed, `{0, pending}` sent |
| Tracker.ProgressTracker.HandleRow | android/src/main/kotlin/org/cracktech/native_flutter_downloader/NativeFlutterDownloaderPlugin.kt:227-321 | updating the fields for one row has the effect of `RowStep`, including the exception raised by a PAUSED row with total 0 and by a failing notification update after the complete event |
| Tracker.ProgressTracker.HandleException | android/src/main/kotlin/org/cracktech/native_flutter_downloader/NativeFlutterDownloaderPlugin.kt:325-340 | the handler's updates are `Catch` |
| Tracker.ProgressTracker.PollOnce | android/src/main/kotlin/org/cracktech/native_flutter_downloader/NativeFlutterDownloaderPlugin.kt:212-343 | the row loop, stopping at an exception and then handling it, is `Step` on a poll |
| Tracker.ProgressTracker.WatchdogFires | android/src/main/kotlin/org/cracktech/native_flutter_downloader/NativeFlutterDownloaderPlugin.kt:195-207 | the timer coroutine's updates are `Step` on the watchdog |
| Tracker.ProgressTracker.Observe | android/src/main/kotlin/org/cracktech/native_flutter_downloader/NativeFlutterDownloaderPlugin.kt:209-348 | any observation updates the fields as `Step` says |
| Tracker.TrackProgress | android/src/main/kotlin/org/cracktech/native_flutter_downloader/NativeFlutterDownloaderPlugin.kt:187-349 | the loop's events and removal count are those of `Run`; hence the first event is pending, RUNNING progress never repeats back to back, and there is at most one removal, with the time-out as the last event |

## Left out

- Method-channel dispatch, plugin lifecycle, permission checking and requesting, and the notification that `disableNotificationClick` builds. These are Flutter and Android glue with no logic of their own; only whether the notification update throws, and its message, is an input of the model.
- `DownloadManager.enqueue`, `query`, `remove` and the `Cursor`. They are foreign calls. The query is the observation sequence, and `remove` is a counter. `cancelDownload` only passes its ids to `remove`.
- The request setup in `download`: URI parsing, headers, notification visibility and the `File` built from `savedFilePath`. The last path segment is an input, and only the choice of file name is modelled.
- The download id carried by every event, which is a constant of one tracking loop.
- The event maps leave out the `reason` and `filePath` keys where the source does. The model does not tell a missing key from a key whose value is null; both are `None`.
- Timing: the 15-second, 1-second and 250-millisecond sleeps, the coroutines, the hops to the main thread and the race between the watchdog and a poll in progress. The watchdog is an observation that can arrive between passes of the loop.
- Tracker.TrackProgress: the source polls until a terminal state however long that takes. The model stops when the observations run out.
- Exceptions raised before any row is handled, such as `downloadId!!` on a null id or a missing column, are not modelled separately. They reach the same handler as a failed query and have its effect, so they appear as `QueryError`; `!!` throws with a null message, which is `QueryError(None)`.
- Exceptions raised while a row is handled are modelled only for the division by zero of a PAUSED row and for the notification update of a SUCCESSFUL row. A column read inside a row or a `channel.invokeMethod` that throws is not modelled.
