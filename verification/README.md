# A verified model of the subtitle generator's core

The server takes a media file, transcribes it and writes subtitle files. This project models four parts
of it in Dafny and proves what they promise.

**Subtitle text.** `LineBreak` and `WordGroups` are the line breaking and the grouping of timed words.
`Timestamps`, `SubtitleFiles` and `RoundTrips` are the SRT and WebVTT printers (section 4.1 of W3C WebVTT)
and the three parsers that have to undo them; `PrintedFiles` says what stands in a printed file. `PyText`,
`Numerals` and `Durations` are the Python string and number operations they rest on and the displayed
durations that the database reads back. Strings are sequences of characters, times are exact reals.

**The task lifecycle.** `Lifecycle` has one step of the pipeline thread of a task, or of a handler that
acts on it (cancel, pause, resume, force-abort), at the granularity of single reads and writes of the
shared record. `Pipelines` puts all tasks under the counting semaphore and the critical state. A run is a
sequence of actions, and an action that is not enabled changes nothing, so a theorem about every sequence
of actions is one about every interleaving. `Controls` has the handlers and the segment loop as imperative
code over the record, and `Pipeline` has `process_video` with its steps and clauses; both are proved to do
what the steps of `Lifecycle` do in a row. `Drives` is how a run goes on when the environment lets one
task at a time have its turn; `Progress` uses it to show that no pipeline gets stuck, `LostCancels`,
`Blocking` and `Endings` to say exactly when a cancelled task can still complete, when it can be left in
its pause and when an "error" status is final, and `Races` for whole families of runs in which the protocol
falls short. `Statuses` and `Phases` tell from the place of the thread what a task shows, which phases it has been
through and where it will notice a cancel request; `Effects` says exactly which granted pauses can pause and which
cancelled tasks can fail.

**Caches and events.** `TtlCache`, `ModelCache` and `Events` are the response cache with its double check,
the locked model loader with its timeouts, and the bounded event queues with their sequence numbers: the
objects that the program updates, and the same kind of step protocol over them. `TaskRecords` is what many events
leave in the record of a task.

**Logs and accounting.** `SlidingLog`, `RateLimiter`, `BruteForce`, `Pagination` and `Uptime` compare
pruned logs with full ones, pages with the table, and summed downtime with the time that is covered.

Each operation that the program writes as a loop or an update is a method or a class here, proved equal to
a function of its inputs or of the old state, and the main results are lemmas about those functions.

## What turned out differently from the documentation

* `break_line` says it never splits inside a word. Its last fallback keeps the text before the last blank
  of the first `max_chars` characters and the text from `max_chars` on, and drops what is between:
  `LineBreak.HardBreak`, `LineBreak.WordsKeptExactly`. It can get there although a fitting split exists:
  `LineBreak.FittingSplitMissed`. Exactly when it does is told by the word lengths: `LineBreak.FallsBackIff`,
  and for words with one blank between them `LineBreak.MiddleFitsIff`.
* SRT milliseconds are measured from the time truncated toward zero, so a negative time is shown wrong
  unless it is a whole second: `Timestamps.SrtShowsFloorIff`. The parser of the editing routes raises on it:
  `Timestamps.LooseReads`.
* A text with a blank line in it does not survive printing and parsing, and but for such a time is the only
  thing that does not: `RoundTrips.ReadsBackIff`.
* A cancel request that is answered with success can be lost, and the task complete, in two regions: while
  the task is queued, because its start lowers the flag (`Races.QueuedCancelIsForgotten`,
  `Races.ForgottenRun`), and behind the last check, from the checkpoint before the finalize step to the
  completion, if the injection does not land (`LostCancels.LateCancelRun`). There and nowhere else:
  `LostCancels.CancelIsLostIff`, and told from the state before the request
  `LostCancels.AcceptedCancelIsLostIff`.
* A cancelled task can be left waiting in its pause: `Blocking.BlockedRun`. From which states of a
  cancelled task that can still happen is `Blocking.BlockedIff`, and with a handler between its steps
  `Blocking.LeftBlockedIff`; that it takes a pause request after the cancel request and no injection that
  landed is `Pipelines.NotLeftBlocked`, which is necessary only.
* A pause request is granted whenever the task shows "transcribing", which it still does behind the last segment
  if diarization and translation are skipped, and then it pauses nothing: `Statuses.PauseIsGranted`,
  `Phases.PausedTooLate`. Which granted requests can still pause their task, exactly: `Effects.GrantedPauseIff`.
* A cancelled task can end as failed. During its extraction the request itself kills ffmpeg, and if the injected
  exception does not land first the step raises an ordinary error: `Phases.KilledExtraction`. When a flagged task
  can still fail, exactly: `Effects.CancelledCanFailIff`.
* "error" is not a final status: `Races.OverwrittenRun`; when it is: `Endings.ErrorStaysIff`.
* A completed or a cancelled task can show "error": `Races.CompletedRun`; exactly if a force-abort emitted
  its event after the outcome was written: `Endings.EndTells`.
* Two first calls of `get_task_semaphore` that overlap make two semaphores, and more than three pipelines
  run: `Races.TwoSemaphores`; with one semaphore they never do: `Pipelines.AtMostThree`. From when on there
  can be no second one, and no fourth pipeline: `Races.NoSecondSemaphoreIff`, `Races.NeverMoreThanThreeIff`.
* The cache lifetime counts from arrival to arrival, so a caller that waits for the lock can be handed a
  value of any age: `TtlCache.ExpiredWhileWaiting`. By how much it can be out of date after which wait,
  exactly: `TtlCache.OverdueIff`.
* Sequence numbers rise for a subscriber only with one emitter at a time: `Events.TwoEmittersCross`; exactly
  if no emitter begins before one with an earlier number: `Events.RisesIffNoneOvertakes`.
* Both rate logs need a clock that does not go back between two calls: `RateLimiter.OutOfOrderOverfills`.
  Which clocks the limiter bears, whatever the limit: `RateLimiter.RepliesAlikeIff`.
* Following the cursor misses a row exactly when it ties with the last row of a page:
  `Pagination.MissedExactlyOnTies`. Which tables that spares can be told from the sorted times alone:
  `Pagination.ListsAllExactlyIfTimesFit`; two rows of one time, a page each, are not:
  `Pagination.EqualTimesAreMissed`.
* The status page leaves out an outage that began before its window: `Uptime.OlderOutagesAreMissed`. It can
  show 100 percent for a component that was down all the time: `Uptime.OldOutageIsShownAsUp`; when it shows
  too much is `Uptime.OverstatedIff`.

## Model

| member | source | states |
|---|---|---|
| `LineBreak.BreakLine` | app/utils/subtitle_format.py:11-67 | the program, with its separator passes, its loop over the boundaries and its fallbacks, returns `Broken`, which every result below is about |
| `LineBreak.TrySeparators` | app/utils/subtitle_format.py:28-43 | a pass returns the two lines of the first separator whose cut gives two lines that fit, and nothing if there is none |
| `LineBreak.SeparatorDecides` | app/utils/subtitle_format.py:27-43 | a long text is cut at the first of ". ", "! ", "? ", "; ", ", ", ": ", " - ", in this order, whose first occurrence gives two lines that fit, the mark staying on the first line; only without one is it split in the middle |
| `LineBreak.MiddleDecides` | app/utils/subtitle_format.py:45-67 | then it is split at the first of the word boundaries nearest the middle if both lines fit, else cut at the last blank before the limit, and without one or with a single word left whole |
| `LineBreak.OneLineDecides` | app/utils/subtitle_format.py:20-25 | a text that fits is only stripped, and one that may take a single line ends before the last blank of its first `max_chars` characters |
| `LineBreak.BestSplit` | app/utils/subtitle_format.py:50-59 | the loop finds the first of the word boundaries that minimise the distance from the middle |
| `LineBreak.NearestIsClose` | app/utils/subtitle_format.py:50-59 | the chosen boundary is at most (w+1)/2 from the middle, w being the longest word, unless the middle lies before the first boundary or behind the last |
| `LineBreak.TwoLinesFit` | app/utils/subtitle_format.py:20-64 | single-spaced text with longest word w and ceil(len/2) + floor((w+1)/2) <= max_chars is shown on at most two lines that fit, with exactly its words |
| `LineBreak.WordsKeptExactly` | app/utils/subtitle_format.py:11-67 | the word sequence is kept by every call but the clip to one line and the fallback that drops a character that is not whitespace |
| `LineBreak.HardBreak` | app/utils/subtitle_format.py:66-67 | the fallback keeps everything before the last blank of the window and from the limit on, drops exactly what is between, and keeps the words iff that is whitespace |
| `LineBreak.LossAtTheLimit` | app/utils/subtitle_format.py:66-67 | with blanks as the only whitespace, something is lost iff the character before the limit is no blank |
| `LineBreak.ClipLosesInk` | app/utils/subtitle_format.py:24-25 | clipping to one line always changes the words |
| `LineBreak.FallbackLosesInk` | app/utils/subtitle_format.py:66-67 | a text for which the fallback is reached and loses a letter |
| `LineBreak.ChosenFitsIff` | app/utils/subtitle_format.py:45-64 | for every list of words and every middle: the chosen split fits iff some boundary fits, every boundary too early for its rest lies further from the middle, and every boundary too late lies no nearer, all in sums of word lengths |
| `LineBreak.MiddleFitsIff` | app/utils/subtitle_format.py:45-64 | for words with one blank between them only the boundaries that are too early matter |
| `LineBreak.FallsBackIff` | app/utils/subtitle_format.py:20-67 | on two lines or more, a long text is left whole or cut at the limit iff no separator cuts it well and no word boundary wins in that sense |
| `LineBreak.MiddleNearlyBest` | app/utils/subtitle_format.py:45-64 | in particular the split at the middle fits whenever any word boundary gives two lines that fit with one or two characters to spare |
| `LineBreak.FittingSplitMissed` | app/utils/subtitle_format.py:45-67 | a text with a word boundary that fits for which the program takes the fallback and loses a word |
| `LineBreak.LinesAreClean` | app/utils/subtitle_format.py:11-67 | text without newlines comes out with at most one newline and no empty line |
| `WordGroups.WordsToSegments` | app/utils/subtitle_format.py:121-186 | the loop, with its running text and its three tests, returns the segments of the greedy groups |
| `WordGroups.JoinsIffAllowed` | app/utils/subtitle_format.py:145-157 | the three tests let a word join exactly when the longer run keeps the gap, duration and length limits |
| `WordGroups.SegmentsAreACut` | app/utils/subtitle_format.py:140-186 | the segments carry the words that are not blank in order, each once; if the first word is not blank, in runs that keep the limits, with the times and text of their run |
| `WordGroups.FewestSegments` | app/utils/subtitle_format.py:140-186 | no other cut of the spoken words into allowed runs has fewer runs, the first run measured from the start of the first word of the list, blank or not |
| `WordGroups.BlankFirstWord` | app/utils/subtitle_format.py:125-186 | a blank first word only moves the start of the first segment: all times and texts are those for the spoken words with their first start moved there |
| `WordGroups.GreedyStaysAhead` | app/utils/subtitle_format.py:140-186 | from any open group on, any allowed cut of the rest needs at least as many runs |
| `Numerals.IntRoundTrip` | app/utils/formatting.py:21 | `int` reads back every integer that the zero-padded formatting wrote, of either sign and any length |
| `Numerals.IntReads` | app/utils/srt.py:55 | `int` takes whitespace around a numeral and a sign of either kind |
| `Numerals.UnderscoreIsSkipped` | app/utils/srt.py:55 | and an underscore between two digits |
| `Numerals.FloatAtTheEdge` | app/routes/subtitles.py:141 | `float` takes a point with digits on one side only |
| `Timestamps.VttRoundTrip` | app/utils/srt.py:25-65 | parsing a printed WebVTT time gives it rounded down to the millisecond, for every real time |
| `Timestamps.SrtRoundTrip` | app/utils/formatting.py:15-21 | parsing a printed SRT time gives the time that its fields show, for every real time |
| `Timestamps.SrtShowsFloorIff` | app/utils/formatting.py:15-21 | that is the time rounded down to the millisecond iff it is not negative or is a whole second |
| `Timestamps.LooseReads` | app/routes/subtitles.py:134-141 | the second timestamp parser reads an SRT time as its fields show it, for every real time, unless its milliseconds are below zero; then it raises |
| `Timestamps.LooseRoundTrip` | app/routes/subtitles.py:134-141 | so it gives the time rounded down to the millisecond iff it is not negative or is a whole second |
| `SubtitleFiles.PrintSegments` | app/utils/srt.py:8-47 | both printers, as loops over the segments with the running number, return `Printed` |
| `PrintedFiles.PrintedLines` | app/utils/srt.py:8-47 | line by line: segment `i` of `n`, counted from 0, stands on the lines 4i to 4i+3, a numeral that reads as i+1, the two times around the arrow, the stripped text behind its speaker's label, and an empty line; a WebVTT file has its header before that |
| `PrintedFiles.BlocksAreNumbered` | app/utils/srt.py:8-47 | whatever the texts hold but a blank line, there is a block for every segment and the blocks are numbered from 1 |
| `PrintedFiles.TimeShows` | app/utils/formatting.py:15-21 | the pieces of a printed time read as the hours, minutes, seconds and milliseconds of the time, in two digits or more, two, two and three |
| `PrintedFiles.MalformedTimes` | app/utils/srt.py:50-65 | a time without its mark or without a colon raises in the strict parsers, and without a colon is 0 for the one of the editing routes |
| `SubtitleFiles.ParseSrt` | app/utils/srt.py:68-95 | the SRT parser, as loops over blocks and lines, returns `ParsedSrt`, with the exceptions of the timestamp parsers |
| `RoundTrips.ReadBlock` | app/routes/subtitles.py:119-131 | a printed block, read by any of the parsers, the lenient one of the editing routes included, gives its two times and its stripped text, or is skipped if the text is empty, whatever the text contains |
| `SubtitleFiles.ParseVtt` | app/utils/srt.py:98-134 | the WebVTT parser, with its header rule, returns `ParsedVtt` |
| `PrintedFiles.FirstArrowDecides` | app/utils/srt.py:77-94 | the strict parsers take the first line of a block with an arrow for the times and what follows for the text, whatever stands before |
| `PrintedFiles.NumberIsOptional` | app/routes/subtitles.py:114-131 | a cue without a number is read by the strict parser and skipped by the one of the editing routes |
| `PrintedFiles.HeaderDecides` | app/utils/srt.py:103-111 | a WebVTT file that begins with the magic word is read from its first blank line on, any other from its start |
| `RoundTrips.ReadsBack` | app/utils/srt.py:8-134 | printing then parsing returns the segments in order with stripped text and floored times, dropping exactly those whose shown text is empty (the second parser drops the same ones), for texts without a blank line, even with " --> " in them; only the second parser raises, iff a shown time has milliseconds below zero |
| `RoundTrips.ReadsBackIff` | app/utils/srt.py:68-134 | and it does so only for such texts and times |
| `RoundTrips.ParsedTextsAreClean` | app/utils/srt.py:73-95 | no content at all parses to a text with a blank line |
| `RoundTrips.FormatSegments` | app/utils/subtitle_format.py:109-118 | the loop that breaks every text and keeps everything else of a segment |
| `RoundTrips.BrokenFilesReadBack` | app/services/pipeline.py:745 | breaking lines, printing and parsing returns every segment, in all three formats, for texts without newlines |
| `RoundTrips.SrtParsersAgreeIff` | app/routes/subtitles.py:114-131 | on files without blank lines in a text the two SRT parsers return the same iff no shown time has milliseconds below zero |
| `Durations.ParseDuration` | app/db/task_backend_db.py:65-89 | the loop over the matches of the pattern, after the attempt to read a plain number |
| `Durations.DisplayReadsBack` | app/utils/formatting.py:24-38 | parsing a displayed duration gives it floored to the second below an hour and to the minute from an hour on; below one second it gives 1, and nothing for a negative one |
| `Durations.DisplayShows` | app/utils/formatting.py:24-38 | what is displayed: whole seconds, minutes and seconds, or hours and minutes of the duration rounded down |
| `Durations.FieldsAreAdded` | app/db/task_backend_db.py:77-88 | any number of whole numbers with units, in any order, is read as the sum of what they stand for |
| `Durations.FractionIsRead` | app/db/task_backend_db.py:80-88 | a decimal fraction, any whitespace and a unit, small or capital, are read as so many seconds |
| `Lifecycle.TaskKept` | app/services/pipeline.py:617-905 | every step of a thread or handler keeps what is recorded, the status that may show, and the pause event, flag and injection in order |
| `Lifecycle.DoomedStays` | app/services/pipeline.py:715-758 | once flagged inside the window, a task stays on its way out through every step |
| `Lifecycle.RankDrops` | app/services/transcription.py:109-132 | such a task comes closer to its end with each of its own steps, and no other step takes it further away |
| `Lifecycle.PausedStays` | app/services/transcription.py:121-150 | while the event stays cleared no step commits the thread to another segment |
| `Statuses.StatusTells` | app/services/pipeline.py:184-452 | in every run, what a task shows is told by where its thread is, status by status, unless it is the error of a force-abort, and without `set_critical` there is none |
| `Statuses.PauseIsGranted` | app/routes/control.py:66-78 | in every run, the places of the thread at which a pause request can be granted, and those at which it always is while the event is set |
| `Phases.PhasesInOrder` | app/services/pipeline.py:715-760 | every step keeps the nine phases in their order: none is left out but diarization and translation, none is entered twice, and a phase ends only with its work or a checkpoint passed |
| `Phases.NeverGoesBack` | app/services/pipeline.py:715-760 | so in every continuation of every run a pipeline never goes back |
| `Phases.PauseComesTooLate` | app/services/transcription.py:121-132 | from the diarization on, a pause request never makes the thread wait |
| `Phases.PausedTooLate` | app/routes/control.py:66-78 | a run in which one is granted when only the writing of the files is left |
| `Phases.CancelIsNoticed` | app/services/pipeline.py:719-755 | once flagged inside the window, in every continuation a thread never comes further than the next check: behind probing, extracting or loading, at the next segment, or behind the validation |
| `Phases.CancelIsNoticedThere` | app/services/pipeline.py:719-755 | and from the start of a phase, undisturbed, it can come so far |
| `Phases.EndsAreAsked` | app/services/pipeline.py:835-895 | in every run, a pipeline ends as cancelled only if its cancellation was requested or the critical state was set, and as critically aborted only in the second case |
| `Phases.KilledExtraction` | app/utils/media.py:126-146 | a run in which a cancelled task whose ffmpeg is killed ends as failed |
| `Effects.GrantedPauseIff` | app/routes/control.py:66-78 | in every run, when a pause request is granted, some continuation has the thread wait in its pause iff no exception is pending and the thread is not behind its segment loop, or, if the task is flagged, is at the pause check or just behind it |
| `Effects.CancelledCanFailIff` | app/services/pipeline.py:715-758 | in every run, a task flagged inside the window can still end as failed iff no exception is pending and the thread does not look at the flag before anything that can fail |
| `Pipeline.PipelineThread.ProcessVideo` | app/services/pipeline.py:617-905 | one run that nobody interferes with: it is a run of the thread steps, ends by the clause that the first failing step, the critical state or the tail calls for, shows and records that outcome, appends the model's segments iff it gets to transcribe, and every run of the server that has the task at its start can go on to its end |
| `Pipeline.PipelineThread.RunStep` | app/services/pipeline.py:146-290 | a step writes and announces its status and goes on to its successor, or raises; an optional one may be skipped; after a step that is not skipped the task shows the status of that step |
| `Pipeline.PipelineThread.CheckPoint` | app/services/pipeline.py:719-721 | a checkpoint lets the run pass iff it is neither cancelled nor critical, and raises for a cancel first |
| `Pipeline.PipelineThread.Transcribe` | app/services/transcription.py:106-150 | the loop takes the thread through the three checks and the append of every segment; with a critical state or a cancel flag it raises at the first segment and appends nothing, and without segments it looks at neither |
| `Pipeline.PipelineThread.Close` | app/services/pipeline.py:760-905 | the completion or the `except` clause, and the `finally` clause: the final status, the outcomes recorded and the way to the release |
| `Pipelines.CancelledInTime` | app/services/pipeline.py:715-758 | in every run: flagged after the prologue and before the last cancel check, a task never enters the finalize step, never shows as done, and ends cancelled or with an error |
| `Pipelines.CancelledEndsSoon` | app/services/transcription.py:109-132 | it takes at most 28 more steps, and always has one to take until it has ended, unless it is blocked in its pause |
| `Pipelines.NotLeftBlocked` | app/routes/control.py:28-57 | a cancelled task is blocked only if a pause request cleared the event after the cancel request and no injection landed, both told from the run (when it still can be is `Blocking.BlockedIff`) |
| `Pipelines.MarksTellTheRun` | app/routes/control.py:76-77 | the two marks of that theorem are exactly the events of the run |
| `Pipelines.PauseHolds` | app/services/transcription.py:109-150 | while nobody sets the cleared event, at most one more segment is appended |
| `Pipelines.PermitsAreConserved` | app/services/pipeline.py:638-639 | in every run the free permits of a semaphore and the pipelines that hold one are three together |
| `Pipelines.AtMostThree` | app/state.py:179-183 | with a single semaphore, at most three pipelines are between acquire and release |
| `Pipelines.WarmStart` | app/state.py:179-183 | once a semaphore exists and nobody is making one, no other is ever made |
| `Pipelines.OutcomeOnce` | app/services/pipeline.py:810-905 | a pipeline that has ended recorded exactly one of completed, cancelled and failed, the one of the clause that ended it, plus one if the tail raised after its record and minus one if a clause raised before its own; its status is that outcome's or a late abort's error |
| `Pipelines.TheEndIsFinal` | app/routes/control.py:22-23 | after the end, with no handler in flight, every continuation leaves status, record and segments alone |
| `LostCancels.CancelIsLostIff` | app/services/pipeline.py:650-758 | in every run, a flagged task completes in some continuation iff it has completed, has not come to its prologue, or is past the last cancel check and not yet recorded with no exception pending |
| `LostCancels.AcceptedCancelIsLostIff` | app/routes/control.py:17-57 | told before the request: an accepted cancel whose handler is through can be lost iff the task was queued, or was past the last check and the injection did not land |
| `LostCancels.LateCancelRun` | app/services/pipeline.py:753-809 | a run that accepts a cancel behind the last check and ends the task as done |
| `Races.QueuedCancelIsForgotten` | app/services/pipeline.py:650 | a cancel carried out while the task is queued: every run from the prologue on is the run without it |
| `Races.ForgottenRun` | app/services/pipeline.py:650 | a submitted task that is cancelled and then given its permit: its runs are those without the request |
| `Blocking.BlockedIff` | app/routes/control.py:28-78 | in every run, a flagged task inside the window with no handler at work can still be left blocked in its pause iff no injection is pending and the event is cleared with the thread on its way into the wait, or is set with the status transcribing and the thread at the pause check or just behind it |
| `Blocking.LeftBlockedIff` | app/routes/control.py:17-78 | the same also while a cancel, pause or force-abort handler is between its steps: the task can be left blocked with no handler at work iff what the handler has yet to write leaves the way open |
| `Blocking.BlockedRun` | app/services/transcription.py:131-148 | a run that leaves a cancelled task blocked |
| `Blocking.LeftBlocked` | app/routes/control.py:60-78 | from every state between the cancel check and the pause check, a cancel and a pause request leave the task blocked |
| `Progress.EveryPipelineCanEnd` | app/services/pipeline.py:617-905 | from every state of every run, every pipeline can still be brought to its end |
| `Endings.EndTells` | app/state.py:146-157 | in every run, an ended task, unless its clause raised, shows the outcome that ended it, or an error iff a force-abort emitted its event after the outcome was written |
| `Endings.ErrorStaysIff` | app/services/pipeline.py:670-905 | in every run, an "error" status stays in every continuation iff the thread writes no other status from where it is or a critical abort is pending |
| `Races.ErrorIsOverwritten` | app/services/sse.py:77-81 | from every state before the extraction, a force-abort writes the error status and a thread in which the injection did not land overwrites it |
| `Races.OverwrittenRun` | app/services/sse.py:77-81 | a run that does so |
| `Races.CompletedShowsError` | app/state.py:146-157 | from every state at the end of the work, a task that completes during a force-abort records its completion and shows an error |
| `Races.CompletedRun` | app/state.py:146-157 | a run that does so |
| `Races.TwoSemaphores` | app/state.py:179-183 | a run with two semaphores and four active pipelines |
| `Races.NoSecondSemaphoreIff` | app/state.py:179-183 | with at most one semaphore so far, no continuation makes a second iff it exists and nobody is about to make one |
| `Races.NeverMoreThanThreeIff` | app/state.py:179-183 | and iff so, no continuation ever has more than three active pipelines |
| `Controls.TaskRecord.Cancel` | app/routes/control.py:17-57 | the handler does to the record what its four steps do in a row, field by field, and answers by the status and flag it found |
| `Controls.TaskRecord.Pause` | app/routes/control.py:61-78 | the same for pause, and which of its four answers is given for which status and event; all but one leave the record alone |
| `Controls.TaskRecord.Resume` | app/routes/control.py:82-91 | the same for resume: the event is set and a waiting thread notified |
| `Controls.TaskRecord.ForceAbort` | app/state.py:102-157 | the same for one round of the force-abort: flag, event, injection and the error status, for a task that is not over |
| `Controls.Server.SetCritical` | app/state.py:72-157 | on the transition every task is aborted, each by its own steps; otherwise only the flag and the reasons change |
| `Controls.TranscribeSegments` | app/services/transcription.py:109-150 | the loop appends exactly the segments before the first that meets the critical state or a cancel, and says which stopped it |
| `TtlCache.ResponseCache.Call` | app/services/response_cache.py:52-82 | one call alone: a live entry is returned, otherwise what the handler returns, which is stored with the arrival time plus the lifetime, or what it raises; without a request the cache is bypassed |
| `TtlCache.CacheClear` | app/services/response_cache.py:92-110 | every store keeps exactly the entries whose keys do not begin with the prefix, none without one, and the number of the others is returned |
| `TtlCache.OneHandlerInFlight` | app/services/response_cache.py:71-82 | in every run at most one handler called through the cache is in flight, its caller holds the lock, and who has ended does not |
| `TtlCache.ComputationsAreApart` | app/services/response_cache.py:61-82 | in every run two computations of a key with no clear between have arrivals at least `seconds` apart (a lifetime that is not negative) |
| `TtlCache.HandedValuesAreFresh` | app/services/response_cache.py:61-82 | in every run the value handed to a request arriving at `a` was computed for its key and finished after `a - seconds`, or is its own |
| `TtlCache.ExpiredWhileWaiting` | app/services/response_cache.py:61-78 | for every waiting time, a run in which an entry is handed out that long after it expired |
| `TtlCache.OverdueIff` | app/services/response_cache.py:61-78 | some run hands a value that expired `overdue` ago to a caller that has waited for `wait` iff `-seconds <= overdue < wait` (and `wait` is not negative) |
| `ModelCache.Manager.GetModel` | app/services/model_manager.py:69-103 | one call alone: what is returned or raised and what is stored, for every way its lock and its loader can turn out |
| `ModelCache.StoredAtMostOnce` | app/services/model_manager.py:83-93 | in every run a key is stored at most once, with what a loader of that key loaded in time, and the cache is what was stored |
| `ModelCache.SameObject` | app/services/model_manager.py:76-103 | in every run successful callers of a key get the same object, and the final read never fails |
| `ModelCache.LockIsReleased` | app/services/model_manager.py:79-102 | in every run the holder's own next steps release the lock, whatever its loader does |
| `ModelCache.GivenUpIsNeverStored` | app/services/model_manager.py:55-66 | in every run, a caller that was told of a timeout or a failure is never the one that stored an entry, even if its loader finishes later; every cached model was stored by another |
| `Events.Hub.Subscribe` | app/services/sse.py:33-42 | a fresh empty queue joins the task's list |
| `Events.Hub.Unsubscribe` | app/services/sse.py:45-50 | the first occurrence of the queue leaves the list, the others stay in their order, and an absent one changes nothing |
| `Events.Hub.Cleanup` | app/services/sse.py:53-58 | both the counter and the list of the task go |
| `Events.Hub.Emit` | app/services/sse.py:61-113 | every queue of the task gets the event, with its number and with the kind and time that its data do not bring themselves, unless it is full, and no other does; in the task's record every field of the data but "type" and "timestamp" has the event's value, `seq` is the number, and everything else is as it was; the counter goes after a done, error or cancelled event |
| `Events.SubscriberSees` | app/services/sse.py:100-108 | in every run, what a subscriber has taken and its queue holds is in order exactly the broadcasts since it subscribed, minus those sent while its queue was full |
| `Events.NothingIsLost` | app/services/sse.py:100-108 | if the queue was never full at an offer it is all of them |
| `Events.NumbersAreUnique` | app/services/sse.py:72-75 | in every run the numbers of an epoch count the events |
| `Events.JumpsCountDrops` | app/services/sse.py:72-75 | with one emitter at a time the number rises between consecutive events of an epoch, and the jump counts the drops exactly |
| `Events.EpochsAreStretches` | app/services/sse.py:110-113 | without a cleanup, epochs are the stretches between done, error and cancelled events |
| `Events.TwoEmittersCross` | app/services/sse.py:72-108 | two emitters at once can broadcast their numbers in the wrong order, and a subscriber's queue then holds 2 before 1 |
| `Events.RisesIffNoneOvertakes` | app/services/sse.py:72-108 | in every run in which all emitters have begun, the broadcasts are in the order of their numbers iff none began while one with an earlier number had not |
| `TaskRecords.LastEventWins` | app/services/sse.py:77-81 | after any events, a field of the record holds the value of the last event that brought it |
| `TaskRecords.UntouchedStays` | app/services/sse.py:77-81 | and one that none brought is as it was |
| `TaskRecords.NumberCounts` | app/services/sse.py:72-75 | and `seq` counts the events since the last done, error or cancelled one |
| `RateLimiter.Limiter.CheckRateLimit` | app/services/rate_limiter.py:36-65 | the reply and the new bucket, and that no other bucket changes |
| `RateLimiter.PrunedBucketDecidesAlike` | app/services/rate_limiter.py:44-60 | unless the clock steps back over an admission that a call between has dropped, the pruned bucket replies as the log of all admissions would |
| `RateLimiter.RepliesAlikeIff` | app/services/rate_limiter.py:41-60 | for given call times, every reply is that of the full log under every limit iff the clock never steps back so |
| `RateLimiter.AdmittedIsReference` | app/services/rate_limiter.py:44-60 | then the admitted calls are those of the reference |
| `RateLimiter.WindowNeverOverfull` | app/services/rate_limiter.py:44-60 | and no window of the length, half-open at either end, holds more than `limit` admissions |
| `RateLimiter.RetryIsAdmitted` | app/services/rate_limiter.py:50-57 | with no admission in between, a later call is admitted iff the oldest counted admission has left the window, and `retry_after` is past that moment by at most a second |
| `RateLimiter.ReplyCounts` | app/services/rate_limiter.py:49-64 | a call is admitted iff fewer than `limit` admissions lie in the window that ends with it, and `remaining` is what is then left of the limit; refused calls are told of none |
| `RateLimiter.OutOfOrderOverfills` | app/services/rate_limiter.py:41-44 | with the clock read before the lock, two calls in the other order overfill a window |
| `BruteForce.Tracker.RecordAuthFailure` | app/middleware/brute_force.py:29-40 | the new entry of the address, and that the others and their histories stay |
| `BruteForce.Tracker.IsIpBlocked` | app/middleware/brute_force.py:43-51 | an address is blocked iff its full history of failures says so: a tenth failure within 300 seconds, less than 600 ago |
| `BruteForce.BlockedExactly` | app/middleware/brute_force.py:29-51 | the pruned entry blocks at `t` iff some failure less than ten minutes before came as the tenth or later within five minutes |
| `BruteForce.BlockedInNumbers` | app/middleware/brute_force.py:22-51 | the same in numbers: ten failures, 300 seconds, 600 seconds |
| `BruteForce.FailuresAreRecent` | app/middleware/brute_force.py:34-37 | the pruned list is what pruning the full history gives |
| `Pagination.SearchTasks` | app/services/query_layer.py:99-123 | the loop builds the page and its cursor from the rows the query returned |
| `Pagination.NoRowTwice` | app/services/query_layer.py:74-123 | following the cursor never repeats a row nor goes back, and every page reports the same total, whatever order ties come in |
| `Pagination.PagingStops` | app/services/query_layer.py:91-106 | it stops after at most one page more than there are rows |
| `Pagination.MissedExactlyOnTies` | app/services/query_layer.py:74-91 | a matching row is listed iff it does not tie with the last row of a page it is not on |
| `Pagination.DistinctTimesListAll` | app/services/query_layer.py:74-123 | with distinct times the pages list all matching rows in order |
| `Pagination.ListsAllExactlyIfTimesFit` | app/services/query_layer.py:74-123 | every finished chain lists all matching rows iff, along their sorted times, no page of this size ends between two equal ones, whatever order ties come in |
| `Pagination.FinishedChainExists` | app/services/query_layer.py:74-123 | for every table and search there is a finished chain and a listing, so the results are about something |
| `Pagination.UnreadableStartsOver` | app/services/query_layer.py:74-84 | a cursor that is no time is ignored |
| `Pagination.EqualTimesAreMissed` | app/services/query_layer.py:74-123 | two rows of one time and a page size of 1: the pages end after one of them, in whatever order they come |
| `Uptime.UptimeHistory` | app/routes/status_page.py:75-151 | the loops that group, sum and mark return the report of every component |
| `Uptime.DowntimeCovers` | app/routes/status_page.py:118-123 | summed downtime is at least the time covered by outages, with equality iff no two overlap |
| `Uptime.CoveredMeansDown` | app/routes/status_page.py:95-116 | a moment is covered iff it lies in the window and an outage of the component lasts at it, from its creation until its resolution |
| `Uptime.EachOutageAdds` | app/routes/status_page.py:118-123 | every outage adds its own time in the window to the minutes of downtime |
| `Uptime.UptimeIsNotOverstated` | app/routes/status_page.py:125-129 | the reported percentage is never above the true one, and is it without overlaps, but for the cap |
| `Uptime.BarIsWorst` | app/routes/status_page.py:131-149 | a daily bar shows the worst severity among the incidents that touch the day |
| `Uptime.TouchedDays` | app/routes/status_page.py:131-137 | an incident is on the bars of exactly the days up to today between its clamped start and end |
| `Uptime.BarShows` | app/routes/status_page.py:131-149 | told from the incidents' own times, a bar shows an outage iff a critical or major one was created before the end of its day and not resolved before its start, else the next severity of which there is one; the last bar is today's |
| `Uptime.OlderOutagesAreMissed` | app/routes/status_page.py:88-116 | downtime in the window is missed iff an outage created before it is not resolved at a moment of it that no fetched outage covers |
| `Uptime.OverstatedIff` | app/routes/status_page.py:88-129 | the percentage shown is above what all recorded incidents leave iff they cover some time and either no downtime was fetched or less than they cover, with the cap not in the way |
| `Uptime.OldOutageIsShownAsUp` | app/routes/status_page.py:88-129 | an unresolved outage from before the window is shown as 100 percent while the component was down all the time |

## Left out

* ffmpeg, the speech model, diarization and translation are oracles that return or raise; HTTP routing,
  access checks, logging, files, S3, Redis, Celery and the database engine are not part of this model.
* Float rounding: times and percentages are exact reals, so a millisecond that float truncation loses
  (app/utils/formatting.py:20) is not captured; the rounding of `downtime_min` is left out too.
* Line breaking takes `max_chars >= 0`; slicing with a negative limit is not modelled.
* `float()` is modelled for numerals without an exponent, infinities and NaN, and `int()`, `float()` and
  `\d` for ASCII digits; `lower()` for ASCII letters. The universal newlines of Python's text files are
  left out, so a carriage return is an ordinary whitespace character.
* Speaker labels are printed as the source prints them; the round trips compare with the text as shown,
  labels included.
* The pipeline's prologue is one step that does not raise, and an injected exception is delivered only
  inside the `try` before the status is done. The completion tail may raise only after its record.
* An injected exception is not swallowed by an inner `except` of a step.
* `Pipeline.PipelineThread.ProcessVideo`: a run without requests and with one critical state throughout;
  runs with interference are those of `Pipelines`, over the same steps.
* `Pipeline.PipelineThread.Transcribe`: starts with the pause event set, and flag, event and critical state
  stay as they are during the loop; `Controls.TranscribeSegments` has them change from segment to segment,
  and `Pipelines` at any step.
* `Durations.ParseDuration`: a plain number with an exponent, an infinity or NaN, which `float()` reads, is
  not read as a number here.
* The retry list of failed database writes (app/services/pipeline.py:518-548) and the text of messages.
* `set_critical` of `Pipelines` starts when no handler is at work and its rounds for the tasks may then
  interleave with other handlers, which allows more runs than the single event loop does.
* Other tasks' events, which share the subscribers' lock with the channel of `Events`, only make it wait.
* Limit and window of the rate limiter are fixed per key, as its callers use it; the IP lists and the
  per-user counters are independent of it.
* The filters of a search are one predicate on rows, a cursor is a time or unreadable, and every row has a
  creation time.
* The fallback of the status page when the database fails.
* Worker heartbeats, preferences, metrics, status labels, weekly sums and smoothing are single assignments
  or sums without a protocol or an invariant behind them.
