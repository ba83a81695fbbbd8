# Upload widget — a verified model

This project models the upload widget of the Girder web client
(`clients/web/src/views/widgets/UploadWidget.js`). The widget keeps a selection of files and their
total size. It hands the files, one at a time and in selection order, to a
transfer collaborator (a `FileModel`), and reacts to that collaborator's events:

- `complete` moves on to the next file;
- `chunkSent` counts acknowledged bytes;
- `progress` sets the two progress bars;
- `error` offers a resume;
- `errorStarting` offers a restart.

It tells its host `g:filesChanged`, `g:uploadStarted` and `g:uploadFinished`.

The model is a Dafny class, `Widget.UploadWidget`, whose fields are the
widget's fields. A file is seen only through its size, so a selection is a
`seq<nat>`. Every handler is a method that updates those fields in place. The
collaborator is abstract:

- what the widget asks of it (`upload`, `updateContents`, `resumeUpload`,
  `abortUpload`) is appended to a request log, `transfers`;
- what the widget tells its host is appended to an event log, `triggers`;
- the collaborator's events arrive as calls of the `On…` methods, in whatever
  order a caller chooses.

Files:

- `sizes.dfy` (module `Sizes`): the total size of a selection.
- `progress.dfy` (module `Progress`): the two bar widths. `Math.ceil` of the
  percentage is modelled as integer ceiling division.
- `events.dfy` (module `Events`): records, requests, host events, and the
  functions that read the logs.
- `widget.dfy` (module `Widget`): the widget class, its run invariant and the
  lemmas that preserve it.
- `scenarios.dfy` (module `Scenarios`): whole runs driven through the class,
  for symbolic file sizes.

The run invariant `InRun()` holds from `startUpload` on, as long as the
selection is not changed. It says:

- the run's transfers start the selected files in selection order, each with
  its own size;
- the file in flight is the latest one started, and the record the widget
  holds is the one of the run's latest transfer start;
- `uploadFinished` has been reported at most once, and exactly when the
  position has passed the last file.

A ghost `phase` follows the transfer in flight: idle, transferring,
interrupted (resume offered), failed to start (restart offered), or finished.
Each handler's contract says that it keeps the invariant whenever the
collaborator called it in a phase where the widget can receive that event.

Three behaviours follow from the code and may be surprising:

- `startUpload` never looks at the selection. Starting with nothing selected
  reports `uploadStarted` and then, at once, `uploadFinished`
  (`Scenarios.StartWithNothingSelected`).
- A file target with several selected files is not refused. Every file is
  sent, in turn, to the parent's `updateContents` (`Scenarios.FileTargetTwoFiles`;
  its event log differs from the widget's, as noted under "## Left out").
- The header comment announces an `itemComplete` event, but the widget never
  triggers it. The event log has no such event.

## Model

| member | source | states |
|---|---|---|
| Widget.UploadWidget.constructor | clients/web/src/views/widgets/UploadWidget.js:51-64 | A new widget has an empty selection, total size 0, no record in flight, nothing requested or reported; the run invariant holds |
| Widget.UploadWidget.FilesChanged | clients/web/src/views/widgets/UploadWidget.js:111-138 | A non-empty selection gets a total equal to the sum of its sizes (the loop's invariant is the running prefix sum), an enabled start button and a cleared error. An empty one keeps the old total and disables the button. Either way `g:filesChanged` is reported with the selection |
| Widget.UploadWidget.SelectFiles | clients/web/src/views/widgets/UploadWidget.js:19-26 | An empty choice in the file input changes nothing at all. Any other choice replaces the selection and recomputes the total |
| Widget.UploadWidget.DropFiles | clients/web/src/views/widgets/UploadWidget.js:101-109 | A drop always replaces the selection, even with nothing. The total is recomputed only for a non-empty drop |
| Widget.UploadWidget.StartUpload | clients/web/src/views/widgets/UploadWidget.js:140-155 | Disables start, clears the error, zeroes the position and the byte counter, and reports `uploadStarted`. It starts the first file only when the start is not overridden. A new run begins in which the run invariant holds |
| Widget.UploadWidget.UploadNextFile | clients/web/src/views/widgets/UploadWidget.js:162-212 | Past the last file it reports `uploadFinished` and requests nothing. Otherwise it requests exactly one transfer, of the file at the position with its size: `updateContents` on the parent for a file target, `upload` on a record never used before otherwise. From a state ready for the next file it leaves the run invariant holding |
| Widget.UploadWidget.OnComplete | clients/web/src/views/widgets/UploadWidget.js:175-177 | The position grows by exactly one and the next file (or the finish) follows. Within a run the invariant is kept, and the run is finished exactly when the position reaches the number of files |
| Widget.UploadWidget.OnChunkSent | clients/web/src/views/widgets/UploadWidget.js:178-180 | The byte counter grows by exactly the acknowledged bytes; nothing else changes |
| Widget.UploadWidget.OnProgress | clients/web/src/views/widgets/UploadWidget.js:180-187 | The two widths are the rounded-up percentages of the file's and of the whole selection's bytes. A bar is at most 100 while its bytes do not pass its whole, exactly 100 when they equal it, and 0 exactly when no byte is counted. The state is unchanged |
| Widget.UploadWidget.OnError | clients/web/src/views/widgets/UploadWidget.js:197-200 | A resume is offered; position, counter and records stay as they were; the run invariant is kept |
| Widget.UploadWidget.OnErrorStarting | clients/web/src/views/widgets/UploadWidget.js:201-204 | A restart is offered; position, counter and records stay as they were; the run invariant is kept |
| Widget.UploadWidget.Resume | clients/web/src/views/widgets/UploadWidget.js:11-14 | The error is cleared and the same record is asked to resume; no new transfer is started and the run invariant is kept |
| Widget.UploadWidget.Restart | clients/web/src/views/widgets/UploadWidget.js:15-18 | The error is cleared and the file at the same position is requested again, on a fresh record for a non-file target. The run goes on transferring that file |
| Widget.UploadWidget.OnModalHidden | clients/web/src/views/widgets/UploadWidget.js:80-88 | Closing the dialog aborts the current record exactly when a resume is offered and a record exists; otherwise nothing is requested |
| Widget.UploadWidget.FinishKeepsRun | clients/web/src/views/widgets/UploadWidget.js:163-169 | Reporting the finish from a state ready for the next file leaves a finished run with one finish reported |
| Widget.UploadWidget.StartKeepsRun | clients/web/src/views/widgets/UploadWidget.js:172-211 | Starting the file at the position, from a state ready for it, keeps the started files in order and the request sizes matching the selection |
| Widget.UploadWidget.OtherRequestKeepsLogs | clients/web/src/views/widgets/UploadWidget.js:11-14 | A resume or an abort request leaves the run's started files unchanged and its logs sound |
| Widget.UploadWidget.NewRunReady | clients/web/src/views/widgets/UploadWidget.js:148-153 | Right after `uploadStarted` the run is ready for file 0 and the invariant holds |
| Widget.UploadWidget.InFlightIsLatest | clients/web/src/views/widgets/UploadWidget.js:172-211 | While a transfer is in flight, interrupted or failed to start, the record the widget holds is the record of the run's latest transfer start, and no later request starts one; so a resume or an abort acts on that transfer |
| Widget.UploadWidget.AllFilesStarted | clients/web/src/views/widgets/UploadWidget.js:163-177 | In a finished run every selected file has been started |
| Widget.OverallAtMostFull | clients/web/src/views/widgets/UploadWidget.js:178-187 | When the counter holds the earlier files plus the bytes of the file in flight, the overall bar is at most 100% |
| Sizes.SumStep | clients/web/src/views/widgets/UploadWidget.js:117-119 | One step of the accumulation adds the next file's size to the sum of the prefix |
| Sizes.SumAppend | clients/web/src/views/widgets/UploadWidget.js:116-119 | The total of two selections one after the other is the sum of their totals |
| Sizes.SumSplit | clients/web/src/views/widgets/UploadWidget.js:116-119 | The total is the files before a position, plus the file there, plus the files after it |
| Sizes.SumPriorAndCurrent | clients/web/src/views/widgets/UploadWidget.js:186-187 | Bytes of the finished files plus bytes of the file in flight never pass the total |
| Sizes.SumZero | clients/web/src/views/widgets/UploadWidget.js:186-187 | The total is 0 exactly when every selected file is empty, which is the only case where the overall percentage divides by zero |
| Progress.Percent | clients/web/src/views/widgets/UploadWidget.js:183-187 | The width is the least whole percentage not below the exact ratio: `(p-1)*whole < 100*done <= p*whole` |
| Progress.PercentLeast | clients/web/src/views/widgets/UploadWidget.js:183-187 | Any whole percentage at or above the exact ratio is at least the width |
| Progress.PercentMonotone | clients/web/src/views/widgets/UploadWidget.js:183-187 | More bytes never shrink a bar |
| Progress.PercentAtMostFull | clients/web/src/views/widgets/UploadWidget.js:183-187 | A bar stays within 100% while its bytes do not pass its whole |
| Progress.PercentFull | clients/web/src/views/widgets/UploadWidget.js:183-187 | A bar is exactly 100% when all bytes are counted |
| Progress.PercentEmpty | clients/web/src/views/widgets/UploadWidget.js:183-187 | A bar is 0% exactly when no byte is counted |
| Events.StartedAppend | clients/web/src/views/widgets/UploadWidget.js:207-211 | A request adds its file's position to the started files exactly when it starts a transfer (`upload` or `updateContents`) |
| Events.FinishesAppend | clients/web/src/views/widgets/UploadWidget.js:168 | An event adds one to the finish count exactly when it is `uploadFinished` |
| Events.LastBegunAppend | clients/web/src/views/widgets/UploadWidget.js:172-173 | A request makes its record the latest one started exactly when it starts a transfer |
| Events.LastBegunIsLatest | clients/web/src/views/widgets/UploadWidget.js:172-173 | The latest record started is absent exactly when no request starts a transfer; otherwise it belongs to a request that starts one, and no later request does |
| Events.InOrderSorted | clients/web/src/views/widgets/UploadWidget.js:175-177 | Files started in order never go back to an earlier position |
| Events.InOrderCovers | clients/web/src/views/widgets/UploadWidget.js:175-177 | Files started in order skip no position up to the latest one |
| Events.InOrderExtend | clients/web/src/views/widgets/UploadWidget.js:175-177 | Starting the same file again, or the next one, keeps the order |
| Scenarios.Begun | clients/web/src/views/widgets/UploadWidget.js:101-155 | A dropped non-empty selection that is then started has its first file in flight and has reported `g:filesChanged` and `uploadStarted` |
| Scenarios.TwoFilesInOrder | clients/web/src/views/widgets/UploadWidget.js:163-211 | Two completed files are requested in order on records 0 and 1, and `uploadFinished` is reported once, at the end |
| Scenarios.TwoFilesFullBars | clients/web/src/views/widgets/UploadWidget.js:175-187 | When the second of two files has loaded all its bytes, both bars are at 100% |
| Scenarios.FileTargetTwoFiles | clients/web/src/views/widgets/UploadWidget.js:172-208 | A file target with two files sends both to the parent's `updateContents`, in order |
| Scenarios.FullBars | clients/web/src/views/widgets/UploadWidget.js:180-187 | A single file with all bytes loaded shows two full bars |
| Scenarios.ResumedTransfer | clients/web/src/views/widgets/UploadWidget.js:11-14 | After an error and a resume, the same record is asked to resume and no new upload is requested |
| Scenarios.ResumedCount | clients/web/src/views/widgets/UploadWidget.js:178-180 | Bytes acknowledged before an error and after the resume add up to the file's size, with nothing counted twice |
| Scenarios.RestartedTransfer | clients/web/src/views/widgets/UploadWidget.js:15-18 | After a start failure and a restart, the same file is requested again on a fresh record |
| Scenarios.StartWithNothingSelected | clients/web/src/views/widgets/UploadWidget.js:140-169 | Starting with nothing selected reports `uploadStarted` then `uploadFinished` and requests nothing |
| Scenarios.EmptySelections | clients/web/src/views/widgets/UploadWidget.js:101-114 | An empty choice keeps the selection. A drop of nothing empties it, keeps the old total and disables start |
| Scenarios.OverriddenStart | clients/web/src/views/widgets/UploadWidget.js:152-154 | With the start overridden nothing is requested until the host calls `uploadNextFile` |
| Scenarios.CloseWhileResumable | clients/web/src/views/widgets/UploadWidget.js:84-86 | Closing the dialog while a resume is offered aborts the interrupted record |
| Scenarios.CloseWhileRestartable | clients/web/src/views/widgets/UploadWidget.js:84-86 | Closing the dialog while a restart is offered requests nothing |

## Left out

- Rendering is not modelled: templates, progress-bar CSS, message HTML, the
  drop-zone styling, `girder.formatSize` and the widget's title. These only
  show state; the model keeps the state itself.
- The internals of the `FileModel` transfers (`upload`, `updateContents`,
  `resumeUpload`, `abortUpload`) go over the network. They are requests in a
  log, and the collaborator's answers are method calls.
- `Math.ceil` of a floating-point quotient is modelled as the exact integer
  ceiling. Floating-point rounding is not modelled.
- Widget.UploadWidget.OnProgress: the widget divides by the file's size and by
  `totalSize` without a check. The model requires both to be positive and does
  not model the `NaN`/`Infinity` width the browser would get.
- Events carry no record: each collaborator event reaches the handlers once.
  The widget attaches a fresh set of handlers on every `uploadNextFile`. For a
  file target they all go on the same parent model, so later events would run
  several times. That repetition is not modelled, and neither are events from
  an older record arriving after a restart.
- The resume check on closing the dialog looks for a `.g-resume-upload` link
  anywhere in the page. The model reads this widget's own offer.
- `currentIndex` and `overallProgress` are undefined in the widget until the
  first `startUpload`; the model starts them at 0. The start button's state
  from the template, before any selection, is modelled as disabled.
- Widget.UploadWidget.Resume: it requires a record in flight and an offered
  resume. The widget would fail on a missing record, and the link exists only
  while a resume is offered.
- Widget.UploadWidget.Restart: it requires an offered restart, because the
  restart link exists only after `errorStarting` has shown it.
- Scenarios.FileTargetTwoFiles: it states only the requests. With the stacked
  handlers on the parent described above, the widget would report
  `uploadFinished` twice for this run, and for every file after the first its
  chunks would be counted more than once. The model reports it once.
- Widget.UploadWidget.OnModalHidden: only the abort is modelled. Hiding the
  dialog when a run finishes, and the dialog bookkeeping (`handleOpen`,
  `handleClose`), are not.
- The parent and folder settings, and the template parameters, are kept only
  as the target kind (folder or other container, file, or none).
- The drop-zone click, drag-enter, drag-leave and drag-over handlers only
  restyle the page or open the file dialog, and are not modelled.
- `girderformindlogger/models/applet.py`, `plugins/hashsum_download`,
  `plugins/homepage` and `plugins/google_analytics` are not part of this
  model. They are persistence and REST plumbing outside the widget.
