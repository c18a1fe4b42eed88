# CT_HW1 download manager: a Dafny model of its core

This project models the sequential bookkeeping of a segmented HTTP download
manager written in Go, and proves properties of that model.

- **Parts.** A download is split into byte-range parts. Each part streams one
  ranged GET into a `.part` file. It counts the bytes it has written, so a
  paused part resumes from `start + downloaded`. Two generations of the part
  loop are modelled:
  - `internal/models/part.go` is interrupted through a control channel;
  - `internal/part.go` polls its status every iteration and clamps each read
    to the bytes still missing.
- **Download.** `internal/download.go` decides the part count from the
  `Accept-Ranges` header, computes every part's range, and names each part
  file after its range. Once the parts are done, it merges the part files
  into the output in index order.
- **Queue and manager.** A queue (`internal/models/queue.go`) holds its
  configuration, an active flag and a bounded dispatch channel. The manager
  (`internal/manager.go`) keeps the list of downloads and the queues by name.
  Once a minute it starts or stops each queue according to its active window.
- **Terminal UI.** Two helpers are modelled:
  - the queue editor's validation chain and focus movement
    (`internal/tui/edit_queue_tab.go`);
  - the downloads table's rate and status text and its Pause/Retry/Delete
    key dispatch (`internal/tui/downloads_tab.go`).

Every I/O result is an input of the model: the HEAD response, the outcome of
each request and file operation, and the chunks a response body yields.
Files and modules:

| file | module | models |
|---|---|---|
| common.dfy | Common | `Status`, `Option`, Go's truncating division, sequence helpers |
| decimal.dfy | Decimal | `strconv.Itoa`/`fmt.Sprint` on integers and an `Atoi`-style parser, with their round trip |
| models_part.dfy | ModelsPart | internal/models/part.go |
| internal_part.dfy | InternalPart | internal/part.go |
| download.dfy | Download | internal/download.go |
| queue.dfy | ModelsQueue | internal/models/queue.go |
| manager.dfy | DownloadManager | internal/manager.go |
| edit_queue_tab.dfy | EditQueue | internal/tui/edit_queue_tab.go |
| downloads_tab.dfy | DownloadsView | internal/tui/downloads_tab.go |

Each read loop is written twice:
- as an imperative method on the `Part` class, which mutates
  `downloadedBytes` and `status`;
- as a recursive function over the sequence of iterations (`ReadLoop`,
  `PollLoop`).

The method's postcondition equates its final state with the function. The
lemmas about the function carry the promised properties, among them
monotone counting, the clamp bound, and agreement of the status with the
report on every exit.

The range arithmetic is modelled exactly as the code computes it. The end of
part i equals the start of part i+1, so neighbouring parts share one
boundary byte. The lemmas state the consequences:
- the parts request `contentLength + parts - 1` bytes in all;
- with fewer bytes than parts, two parts get the same file name, and the
  merge then fails.

Where the evident intent and the code disagree, the model
follows the code:
- a zero content length sets `Cancelled`, not `Failed`;
- ranges share boundary bytes rather than partitioning `[0, size)`;
- `removeQueue` only stops the queue and does not cancel its downloads;
- `addQueue` does not validate the queue's settings.

## Model

| member | source | states |
|---|---|---|
| ModelsPart.Part.Start | internal/models/part.go:26-93 | A Completed part reports (nil, Completed) and changes nothing. Otherwise the Range header is `bytes=<start+downloaded>-<end>`. A request or open failure sets Failed and reports Failed. Otherwise the final count, status and report are those of `ReadLoop` from the old count. |
| ModelsPart.ReadLoopOutcome | internal/models/part.go:58-92 | The byte count never decreases. The part ends Completed exactly when it reports (nil, Completed), and Failed only with a Failed error report. A blocked loop leaves InProgress, and a loop that ends InProgress with a report reports an error (an interrupt is such an exit, by `InterruptAfterReads`). The status left is one of InProgress, Completed and Failed. |
| ModelsPart.ReadLoopPrefix | internal/models/part.go:66-78 | Each clean read of n bytes adds exactly n to the count before the loop goes on. |
| ModelsPart.InterruptAfterReads | internal/models/part.go:59-63 | A status received on the control channel ends the loop and reports that status as an error. The count keeps exactly the bytes read before it. |
| ModelsPart.EofAfterReads | internal/models/part.go:79-84 | EOF after clean reads completes the part with every read byte counted, and reports (nil, Completed). |
| ModelsPart.FailureAfterReads | internal/models/part.go:66-92 | After clean reads, a failed write fails the part without counting its bytes, and a read error after a good write fails it with them counted. Both report a Failed error. |
| ModelsPart.Part.SetStatus | internal/models/part.go:133-138 | The status becomes the given one. |
| ModelsPart.Part.AddToDownloadedBytes | internal/models/part.go:147-151 | The count grows by exactly n. |
| ModelsPart.Part.RequestStatus | internal/models/part.go:95-131 | The status becomes the target. The target is sent on the control channel exactly when the old status was InProgress. |
| ModelsPart.Part.Pause | internal/models/part.go:95-104 | Leaves Paused. Signals only when it was InProgress. |
| ModelsPart.Part.Pend | internal/models/part.go:106-113 | Leaves Pending. Signals only when it was InProgress. |
| ModelsPart.Part.Cancel | internal/models/part.go:115-122 | Leaves Cancelled. Signals only when it was InProgress. |
| ModelsPart.Part.Fail | internal/models/part.go:124-131 | Leaves Failed. Signals only when it was InProgress. |
| InternalPart.Part.Start | internal/part.go:27-96 | A Completed part sends nil and changes nothing. Otherwise the range starts at `startIndex+downloadedBytes` and ends at `endIndex`. A request or open failure sets Failed and sends an error. Otherwise the final count, status and exit are those of `PollLoop` with limit `endIndex-startIndex`. |
| InternalPart.Part.PollingLoop | internal/part.go:58-95 | Entered InProgress, the loop's final count, status and exit are exactly those of `PollLoop` from the count it started with. |
| InternalPart.PollLoopBounds | internal/part.go:71-82 | The count never decreases. A count within `endIndex-startIndex` stays within it, because of the clamp. |
| InternalPart.PollLoopOutcome | internal/part.go:58-95 | A silent return happens only when the poll finds Completed. Nil is sent only with Completed. An I/O error is sent only with Failed. A status error carries the non-InProgress status the poll found. The loop blocks exactly while InProgress. |
| InternalPart.PollLoopFillsToLimit | internal/part.go:69-88 | If the server sends at least the missing bytes before EOF, the part completes holding exactly `endIndex-startIndex` bytes. |
| InternalPart.PollLoopPrefix | internal/part.go:58-95 | Clean reads, each clamped, add exactly their clamped counts and leave the loop polling the rest, still InProgress. |
| InternalPart.EofAfterPolls | internal/part.go:69-88 | EOF after clean reads completes the part and sends nil, however many bytes arrived: a short body also ends Completed. |
| InternalPart.FailureAfterPolls | internal/part.go:72-94 | After clean reads, a failed write of a positive clamped count sets Failed without counting it. A read error after a good write sets Failed with the bytes counted. Both send an I/O error. |
| InternalPart.StatusAfterPolls | internal/part.go:59-66 | A status set after clean reads is found by the next poll. Completed returns silently; any other non-InProgress status is sent back as an interruption carrying it. The count keeps exactly the bytes read before. |
| InternalPart.Part.SetStatus | internal/part.go:116-121 | The status becomes the given one. |
| InternalPart.Part.AddToDownloadedBytes | internal/part.go:130-134 | The count grows by exactly n. |
| InternalPart.Part.Pause | internal/part.go:98-102 | Leaves Paused. |
| InternalPart.Part.Pend | internal/part.go:104-108 | Leaves Pending. |
| InternalPart.Part.Cancel | internal/part.go:110-114 | Leaves Cancelled. |
| Download.PartCount | internal/download.go:185-189 | Five parts exactly when `Accept-Ranges` is neither empty nor "none"; one part otherwise. |
| Download.PartJobsShape | internal/download.go:119-125 | Part i starts at `i*partSize` (so part 0 at 0). Each part ends where the next starts. The last part ends at `contentLength-1`. A single part covers the whole file. |
| Download.RangesWithinFile | internal/download.go:119-125 | With at least one byte per part, every range lies inside `[0, contentLength-1]` with start ≤ end, and the starts strictly increase. |
| Download.RequestedBytesOfParts | internal/download.go:119-125 | The parts request `contentLength + parts - 1` bytes in all (each shared boundary byte twice). Their `end - start` bounds sum to `contentLength - 1`; this is what the clamp of internal/part.go would allow, although this file copies each body without that clamp. |
| Download.PartFilePathInjective | internal/download.go:149 | The part file name determines the start offset of its range. |
| Download.PartPathsDistinct | internal/download.go:100 | With at least one byte per part, the parts write distinct files. |
| Download.ShortContentSharesPartFile | internal/download.go:141-149 | With fewer bytes than parts (at least three parts), parts 0 and 1 both use the file of range 0-0. |
| Download.MergeOfDistinctPresentParts | internal/download.go:142-166 | When every name is distinct, present and its I/O succeeds, the merge appends all of them in index order and deletes exactly those files. |
| Download.RemoveFailureKeepsCopiedPart | internal/download.go:156-165 | When part k's copy succeeds and its removal fails, the merge fails with parts 0..k already in the output, and part k's file stays on disk. |
| Download.MergeFailsOnRepeatedName | internal/download.go:142-166 | If any two consecutive parts k and k+1 share a file, the merge fails: it stops earlier, or the file was deleted after part k's copy and cannot be opened for part k+1. |
| Download.Download.constructor | internal/download.go:27-40 | A new download is Pending, with no parts launched, no part files and nothing merged. |
| Download.Download.DownloadParts | internal/download.go:118-131 | Launches the parts' ranges in index order. Adds exactly their part files to disk. |
| Download.Download.MergeParts | internal/download.go:133-168 | If the output cannot be created, the merge fails and changes nothing. Otherwise it visits the recomputed part names in index order. A missing file or failed copy stops it before the file is appended; a failed removal stops it after. The merged list and the files left are those of `MergeWalk`. |
| Download.Download.Start | internal/download.go:170-205 | A HEAD failure changes nothing. A zero length sets Cancelled and stops, leaving the part count, the launched parts, the files and the merged list as they were. Otherwise it sets the content length and the part count, and launches `PartJobs`. It succeeds and sets Completed exactly when the merge succeeds; otherwise the status stays InProgress. |
| ModelsQueue.Queue.constructor | internal/models/queue.go:26-37 | A new queue holds the given configuration, is inactive and has an empty channel. |
| ModelsQueue.Queue.UpdateConfig | internal/models/queue.go:39-46 | The six configuration fields take the new values. The name, the active flag and the channel stay as they were. |
| ModelsQueue.Queue.AddDownload | internal/models/queue.go:48-65 | An inactive queue ignores the download without error. An active queue appends it at the back of the channel, or returns an error and leaves the channel as it was when the buffer is full. |
| ModelsQueue.Queue.Start | internal/manager.go:129 | An inactive queue becomes active with an empty channel and takes the pending list. An active queue is unchanged. |
| ModelsQueue.Queue.Stop | internal/manager.go:125 | The queue ends inactive with nothing buffered. |
| DownloadManager.Manager.constructor | internal/manager.go:18-22 | No downloads and no queues. |
| DownloadManager.Manager.AddDownload | internal/manager.go:32-51 | An unknown queue is an error and leaves the list unchanged. A full active queue is an error: nothing is appended and its channel is unchanged. Otherwise the download is appended at the end, and also sent to the queue's channel when the queue is active. Only the list and the channels are in the frame, so every queue keeps its configuration, flag, capacity and feed, and other queues keep their channels. |
| DownloadManager.IndexOf | internal/manager.go:59-64 | Finds the first index holding d, or none exactly when d is absent. |
| DownloadManager.Manager.RemoveDownload | internal/manager.go:53-68 | Never fails. Deletes only the first entry equal to d and keeps the rest in order. An absent d leaves the list unchanged. The multiset loses exactly one d. |
| DownloadManager.Manager.AddQueue | internal/manager.go:70-81 | A duplicate name is an error and leaves the map unchanged. Otherwise the queue is inserted under its own name. |
| DownloadManager.Manager.RemoveQueue | internal/manager.go:83-97 | A missing name is an error and leaves the map unchanged. Otherwise the queue is stopped (inactive, empty channel and feed) and exactly its key is deleted. The remaining queues keep their flag, channel and feed; configuration and capacity are outside the frame. |
| DownloadManager.Manager.GetQueuePendingDownloads | internal/manager.go:99-110 | The result is the filter `PendingOf` of the list. |
| DownloadManager.PendingOfMembers | internal/manager.go:103-109 | The filter holds exactly the downloads of that queue whose status is Pending. |
| DownloadManager.PendingOfAppend | internal/manager.go:103-109 | The filter distributes over concatenation, so it keeps list order. |
| DownloadManager.TickDecision | internal/manager.go:122-130 | Stop exactly when active outside the window. Start exactly when inactive inside it. Nothing otherwise. |
| DownloadManager.Manager.TickQueue | internal/manager.go:122-130 | After the tick the queue is active exactly when inside its window. A started queue takes its pending downloads and a fresh channel of the given capacity. A stopped or kept queue keeps its capacity; a kept queue also keeps its channel and feed. |
| DownloadManager.Manager.MonitorTick | internal/manager.go:119-132 | After one tick every queue is active exactly when inside its window. Each started queue holds the pending downloads of its name and a fresh channel of the given capacity. Queues already in the right state keep their channel, capacity and feed. Only the run state is in the frame, so no queue's configuration changes. |
| Decimal.ItoaRoundTrip | internal/tui/edit_queue_tab.go:73-80 | Parsing the decimal text of any integer gives back that integer. |
| EditQueue.ClockRoundTrip | internal/tui/edit_queue_tab.go:87-94 | Parsing the "15:04" text of a clock gives back that clock. |
| EditQueue.Validate | internal/tui/edit_queue_tab.go:205-241 | Accepts exactly when max-parallel is a number ≥ 1, the speed limit is a number ≥ 0, and both times parse. It then submits the parsed values under the tab's own queue name. |
| EditQueue.ValidateIsFirstFailure | internal/tui/edit_queue_tab.go:206-233 | The checks run in their fixed order and the first failure's message wins. Validation succeeds exactly when every check passes. |
| EditQueue.UneditedConfirmResubmits | internal/tui/edit_queue_tab.go:71-94 | Saving the unedited pre-filled form of a valid queue submits exactly that queue's settings. |
| EditQueue.Navigate | internal/tui/edit_queue_tab.go:130-276 | Focus stays on the seven positions. From an input, tab/down go forward and up/shift+tab go back, never below 0. |
| EditQueue.EditQueueTab.constructor | internal/tui/edit_queue_tab.go:61-122 | The inputs hold the queue's settings as text. Focus is on the first field and the footer is empty. |
| EditQueue.EditQueueTab.ResetForm | internal/tui/edit_queue_tab.go:388-396 | All inputs are cleared, focus returns to 0 and the footer is cleared. |
| EditQueue.EditQueueTab.HandleKey | internal/tui/edit_queue_tab.go:128-281 | ctrl+c/esc, and enter on Cancel, reset the form and close. Enter on Save validates: a failure becomes the footer; a success submits the update, then either shows the manager's error and stays open, or shows "Queue updated successfully." and closes. Every other key only moves the focus, by `Navigate`. |
| DownloadsView.SpeedStringReadsBack | internal/tui/downloads_tab.go:225-233 | A rate below 1024, negative ones included, is shown exactly in B/s. A larger rate is shown as the truncated count of KB/s or MB/s, whose unit-wide range contains it. |
| DownloadsView.StatusLabel | internal/tui/downloads_tab.go:201-211 | The label is blank exactly for Pending and Cancelled. |
| DownloadsView.StatusLabelInjective | internal/tui/downloads_tab.go:201-211 | Distinct labelled statuses get distinct labels. |
| DownloadsView.KeyAction | internal/tui/downloads_tab.go:126-157 | Acts only when the cursor is on a row, and on that row's download. Pause pauses an InProgress download and resumes a Paused one. Retry resumes only a Failed one. Delete removes any. ctrl+c/esc quit. |
| DownloadsView.DownloadsTab.UpdateRows | internal/tui/downloads_tab.go:194-223 | Exactly one row per download, in list order. Each row shows the URL, the queue, the label and the rate text. |
| DownloadsView.DownloadsTab.constructor | internal/tui/downloads_tab.go:44-111 | The table is filled from the manager's list. |
| DownloadsView.DownloadsTab.Update | internal/tui/downloads_tab.go:117-162 | Refreshes, then makes the call `KeyAction` gives. When a call was made, it refreshes again from the list after the call. |

## Left out

- HTTP and the file system become inputs:
  - the HEAD result, the outcome of each request, file open/create, write,
    copy and remove;
  - the chunks a response body yields.
- File contents are not modelled. The download side assumes each part's GET
  creates its `.part` file (`downloadThisPart`, internal/download.go:79-116).
  `indexOfDownloadedBytes` is not modelled.
- Concurrency (goroutines, `sync.WaitGroup`, mutexes, channel blocking) is
  not modelled. A status change by another task is a step of the read loop,
  taken at an iteration boundary. The dispatch channel is a bounded
  sequence.
- `log.Fatal` ends the process before its `return`, so every such path is
  an abnormal exit; the model returns the decision instead:
  - `setHttpResponse`, internal/download.go:42-64;
  - `supportsPartialDownload`, line 72: as written, a server without range
    support ends the process, so the single-part branch is never reached;
  - the zero-length guard, line 179;
  - `mergeParts`.
- ModelsPart.Part.Start: at internal/models/part.go:51, 72 and 87, `fail()`
  is called while the status is InProgress, so it sends on the part's own
  channel, which nothing reads from (it is never made in the shown code,
  and a nil channel blocks too), and blocks. The model gives the intended
  effect: status Failed and a Failed report.
- DownloadManager.Manager.MonitorTick: as written, line 128 of
  internal/manager.go calls `getQueuePendingDownloads`, which re-locks the
  manager's mutex that the tick already holds, so a tick that would start a
  queue never returns. The model gives the intended effect: start the queue
  with the filter result. The ticker and `time.Now` are left out.
  `inWindow(name)` stands for `CheckActiveTime(now)`, whose time-of-day
  comparison is not part of this model. The channel capacity a start uses is
  a parameter.
- Methods called but not defined in the source get abstract
  specifications:
  - `Queue.Start`, `Queue.Stop`, `Queue.IsActive`, `Queue.CheckActiveTime`;
  - `Download.GetQueueName`, `Download.GetStatus`;
  - `Manager.UpdateQueue`, `GetDownloadList`, `PauseDownload`,
    `ResumeDownload`, `RemoveDownload`.

  The manager's queues are modelled by the queue of internal/models/queue.go;
  internal/queue.go only declares data.
- Download identity: `removeDownload` compares pointers. The model compares
  `DownloadInfo` values, whose `id` keeps distinct downloads apart.
  `Download.Stop`, `Manager.Start` and `Manager.Stop` are empty in the source
  and are not modelled.
- Integers are unbounded. int64 overflow of byte counts and offsets, and the
  `int(...)` conversions, are not modelled.
- `strconv.Atoi` and `time.Parse("15:04")` are parameters of
  EditQueue.EditQueueTab.HandleKey:
  - Decimal.ParseDecimal omits Atoi's 64-bit range check;
  - EditQueue.ParseClock accepts only the two-digit form `Format` produces
    (Go also accepts a one-digit hour).

  Both serve only the pre-fill round trip.
- Text editing inside the focused input is not modelled: `textinput.Update`
  (editing, cursor movement) is library code. Keys it consumes leave the
  text unchanged in the model. Table cursor movement is not modelled either,
  since the cursor is an input.
- Floating point is not modelled. The downloads tab formats
  `download.TransferRate` of a `*models.DownloadInfo`
  (internal/tui/downloads_tab.go:37, 217) with `speedString(int64)`; that
  type is not part of this model, so the field's width is unknown (only
  `models.Download.TransferRate` is shown, a float64). The model keeps the
  rate as the integer `DownloadInfo.transferRate`, which `SpeedString`
  formats. The float `Progress` column is left out.
- EditQueue.UneditedConfirmResubmits: `Clock` holds only hour and minute,
  while a queue's StartTime and EndTime are `time.Time` values.
  `time.Parse("15:04", t.Format("15:04"))` gives back 0000-01-01 hh:mm:00
  UTC, so a time with seconds, a date or a zone comes back changed. The
  lemma's claim for the two times therefore covers only their hour and
  minute; for max-parallel and the speed limit it is exact.
- Download.Download.MergeParts: a failed `io.Copy` is modelled as appending
  nothing of that part; bytes a partial copy may have written are not
  modelled.
- The `updateMsg` ticker that appends "1" to the footer of the downloads
  table is not modelled.
- `BandwidthLimiter.WaitForToken` and `connectionWithPart`'s error values
  are not modelled. Only whether an error is present is kept.
- All `View` functions, styles and key-binding tables are left out, and so
  are:
  - the other TUI files;
  - persistence, logging;
  - cmd/main.go and internal/app/app.go.
