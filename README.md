# Raspberry Pi File Transfer: transfer engine and configuration store

A Dafny model of two parts of a desktop application that copies files and
directory trees between a local machine and a Raspberry Pi over SFTP:

- The transfer engine, the `FileTransfer` class of `file_transfer.py`. It covers
  single-file upload and download with a progress callback, cooperative
  cancellation and one fallback retry without the callback. It also covers the
  recursive directory walkers, the batch worker behind `transfer_files`, the
  bounded transfer log, and the helpers `format_time`, `format_size` and
  `is_directory`.
- The connection-profile store, the `ConfigManager` class of
  `config_manager.py`. It covers adding (upsert by name), removing and looking up
  profiles, their names, the last connection used, and settings with defaults.

## How the model is built

The SFTP client, the local filesystem and the clock are not called. Their
answers are inputs:

- `connected` says whether an SFTP session exists.
- A `Transfer.Node` is what a store holds at a path. Both kinds have the size
  that `getsize`/`stat` reports and a description of how a `put`/`get` of the
  path as a file goes (for a directory only a download job asks for that). A
  directory also has its entries, and says whether it can be created and
  listed.
- A `Transfer.Stream` lists what happens while `put`/`get` runs: chunk
  callbacks with cumulative byte counts, the moments the user calls
  `cancel_transfer`, and how the call and the fallback call end.

What the engine does to the outside world is recorded in its state: the
observer calls it makes (`events`) and the requests it sends (`requests`).

The model is organised in layers:

- `transfer_spec.dfy` (module `Transfer`) states each operation as a function
  of the old state.
- `file_transfer.dfy` (module `Engine`) is the class, with its flags, log and
  loops. Each method's contract says the new state is exactly what the
  function prescribes.
- `transfer_facts.dfy` and `batch_facts.dfy` prove what the functions promise.
- `transfer_log.dfy` holds the 100-entry log.
- `formatting.dfy` holds the formatters.
- `config.dfy` holds the configuration store.
- `text.dfy` holds number rendering, lower-casing and substring search.

`save_config` is abstracted: its result is the parameter `saved`, and every
mutator returns it.

### Behaviour of the code worth knowing

- Empty files. The chunk callback divides by the size (file_transfer.py:109,
  175), so a chunk reported for an empty file raises and the transfer fails
  (`TransferFacts.EmptyFileChunkFails`). Whether the client reports a chunk at
  all for an empty file is the client's business and is an input here.
- Progress is not clamped to 0..100 (file_transfer.py:109, 175).
  `TransferFacts.ChunkProgressRises` assumes a client whose counts never fall
  and never pass the size.
- Directories are logged once. The walkers never call `log_transfer`
  (file_transfer.py:210-287, `BatchFacts.UploadWalkKeepsLogAndEvents`); only
  the batch does (file_transfer.py:331-335), so an uploaded directory is one
  entry (`BatchFacts.DirectoryUploadLoggedAsOneEntry`).
- Directories are never walked on download. A download job always calls
  `download_file` (file_transfer.py:328-329), so a remote directory is
  requested as a file: no local directory is made and nothing inside it is
  fetched. What the server answers is an input; when it is an error not
  mentioning "callback", nothing is logged
  (`BatchFacts.DirectoryDownloadIsNotWalked`).
- Failures are not reported as statuses. A failed job or entry is only printed
  (file_transfer.py:140-142, 206-208, 247-249, 285-287, 337-338), so it produces
  no failure status. A failed job is still announced and still gets its batch
  percentage.
- The result of `transfer_files`. Its docstring promises True when all
  transfers succeed (file_transfer.py:297-298), but the method returns True as
  soon as the worker thread starts (file_transfer.py:360), whatever the jobs
  then do. `Engine.FileTransfer.TransferFiles` returns the value the code
  returns.
- The fallback decision. `"callback" in str(e).lower()` (file_transfer.py:131,
  198) is modelled on the message text
  (`TransferFacts.MentionOfCallbackTakesFallback`). A client that calls the
  one-argument callback with two arguments raises a `TypeError` whose text
  names `callback()`, and that takes the fallback.

## Model

| member | source | states |
|---|---|---|
| Engine.FileTransfer.constructor | file_transfer.py:23-44 | both flags start clear and the log starts empty, so the object is `Valid()` (at most 100 log entries) |
| Engine.FileTransfer.IsTransferInProgress | file_transfer.py:65-72 | reports the in-progress flag |
| Engine.FileTransfer.CancelTransfer | file_transfer.py:74-76 | sets the cancellation flag and changes nothing else, including the in-progress flag |
| Engine.FileTransfer.OnChunk | file_transfer.py:101-110 | once cancelled, a chunk raises the cancellation; for an empty file it raises the division error; otherwise it reports bytes/size*100 and raises nothing |
| Engine.FileTransfer.Stream | file_transfer.py:127-128 | the loop over the client's callbacks stops at the first raise and leaves exactly the state and error that `Transfer.Callbacks` gives |
| Engine.FileTransfer.TransferFile | file_transfer.py:126-138 | one request with the callback; on an error whose text mentions "callback", one retry without it and then a single 100; any other error fails |
| Engine.FileTransfer.UploadFile | file_transfer.py:78-142 | no session or no local size: fails with no effect; otherwise behaves as `Transfer.SingleFile` (upload) |
| Engine.FileTransfer.DownloadFile | file_transfer.py:144-208 | as `UploadFile` with `get` and the remote `stat` size |
| Engine.FileTransfer.UploadDirectory | file_transfer.py:210-249 | mkdir (failure ignored), then every listed entry in order; directories are recursed into and files are uploaded; the result ignores the entries' results |
| Engine.FileTransfer.DownloadDirectory | file_transfer.py:251-287 | makedirs, then every remote entry in listing order; fails when the directory cannot be created or listed |
| Engine.FileTransfer.LogTransfer | file_transfer.py:433-455 | appends the entry and keeps the last 100, so the log stays within 100 entries (`Valid()`); flags, events and requests unchanged |
| Engine.FileTransfer.GetTransferLog | file_transfer.py:457-464 | returns the log as a value, so later changes do not reach the caller |
| Engine.FileTransfer.ClearTransferLog | file_transfer.py:466-468 | empties the log and touches nothing else; the object is then `Valid()` |
| Engine.FileTransfer.RunJob | file_transfer.py:322-329 | an uploaded directory goes to the walker; every other job, downloads of directories included, goes to the single-file transfer |
| Engine.FileTransfer.TransferFiles | file_transfer.py:289-360 | refused with no effect while a batch runs; otherwise runs the worker to the state `Transfer.Batch` gives and clears both flags; a log within 100 entries stays within 100 (`Valid()`) |
| Transfer.Slashed | file_transfer.py:238 | same length, each backslash replaced by a slash and every other character kept |
| TransferFacts.NoLetterKNoFallback | file_transfer.py:131 | a message without the letter k never takes the fallback |
| TransferFacts.MentionOfCallbackTakesFallback | file_transfer.py:129-134 | any message containing "callback" takes the fallback |
| TransferFacts.CancellationTakesNoFallback | file_transfer.py:103-104 | the cancellation message does not take the fallback |
| TransferFacts.ZeroDivisionTakesNoFallback | file_transfer.py:108-110 | the division-by-zero message does not take the fallback |
| TransferFacts.TakesFallbackTestsText | file_transfer.py:129-136 | deciding the fallback on the error kind agrees with testing its text, in both directions |
| TransferFacts.ChunkProgress | file_transfer.py:106-110 | one progress event per chunk, in order, each the cumulative bytes over the size times 100 |
| TransferFacts.CallbacksFrame | file_transfer.py:101-124 | callbacks never touch requests or the log, and earlier events stay in front |
| TransferFacts.ChunksReportPercent | file_transfer.py:106-110 | with no cancellation and a non-empty file, every chunk is reported and nothing raises |
| TransferFacts.CancelledChunkRaises | file_transfer.py:103-104 | with the flag set, a later chunk raises the cancellation |
| TransferFacts.CancelThenChunkRaises | file_transfer.py:101-110 | a cancel request followed by a chunk always raises |
| TransferFacts.ChunkProgressRises | file_transfer.py:108-110 | for a well-behaved client, the percentages stay in 0..100, never fall, and end at 100 when the last chunk completes the file |
| TransferFacts.PercentMonotone | file_transfer.py:109 | the percentage is monotone in the byte count, 0 at 0 and 100 at the full size |
| TransferFacts.NoSessionNoEffect | file_transfer.py:89-94 | without a session, file and directory transfers fail with no effect at all |
| TransferFacts.CleanTransferReportsEachChunk | file_transfer.py:96-138 | a clean stream succeeds with exactly one request and one progress report per chunk |
| TransferFacts.CancelDuringTransferFails | file_transfer.py:101-142 | a cancellation during the stream fails the file with no retry and no log entry |
| TransferFacts.EmptyFileChunkFails | file_transfer.py:97-142 | a chunk for an empty file fails the transfer after the primary request |
| TransferFacts.ErrorTakesFallbackOnlyForCallback | file_transfer.py:126-138 | for any stream ending in an error: when no callback raised, the file is retried once without the callback exactly when the error's text mentions "callback"; it succeeds exactly when that retry completes, which adds one 100 after the callbacks' reports; the log is untouched |
| TransferFacts.WalkResultIgnoresEntries | file_transfer.py:228-249 | an upload walk succeeds exactly when there is a session and the local directory can be listed (a failed mkdir is ignored, file_transfer.py:230-233); a download walk also needs the local directory created; the entries' results never matter |
| TransferFacts.SingleFileRequests | file_transfer.py:126-136 | a file transfer makes its request plus at most one retry, and never logs |
| TransferFacts.UploadFollowsPlan | file_transfer.py:229-243 | apart from retries, an upload walk makes one mkdir per directory and one put per file, depth first in listing order |
| TransferFacts.DownloadFollowsPlan | file_transfer.py:270-281 | apart from retries, a download walk makes one makedirs per directory and one get per file, depth first in listing order |
| TransferFacts.UploadRemotePathsSlashed | file_transfer.py:236-243 | every remote path an upload walk names is free of backslashes, and earlier requests are kept |
| TransferFacts.DownloadRemotePathsSlashed | file_transfer.py:274-281 | every remote path built during a download walk is free of backslashes |
| TransferFacts.UploadEntriesFollowPlan | file_transfer.py:235-243 | the listed entries are transferred one after another, each following its own plan |
| TransferFacts.UploadEntryFollowsPlan | file_transfer.py:236-243 | one entry makes the requests of its subtree's plan |
| TransferFacts.DownloadEntriesFollowPlan | file_transfer.py:273-281 | the remote entries are fetched one after another, each following its own plan |
| TransferFacts.DownloadEntryFollowsPlan | file_transfer.py:274-281 | one entry makes the requests of its subtree's plan |
| TransferFacts.UploadEntriesRemotePathsSlashed | file_transfer.py:236-243 | the remote paths of all entries are free of backslashes, and earlier requests are kept |
| TransferFacts.UploadEntryRemotePathsSlashed | file_transfer.py:238 | one entry's remote paths are free of backslashes |
| TransferFacts.DownloadEntriesRemotePathsSlashed | file_transfer.py:273-281 | the remote paths of all entries are free of backslashes, and earlier requests are kept |
| TransferFacts.DownloadEntryRemotePathsSlashed | file_transfer.py:275 | one entry's remote paths are free of backslashes |
| BatchFacts.JobsFromKeepsLogBounded | file_transfer.py:331-335 | the worker loop keeps the log at most 100 entries long |
| BatchFacts.BatchKeepsLogBounded | file_transfer.py:303-356 | a batch started with at most 100 log entries ends with at most 100 |
| TransferFacts.BasenameOfJoin | file_transfer.py:237 | the basename of a joined entry path is the entry's name |
| TransferFacts.BasenameIsLastPart | file_transfer.py:315 | the basename is the longest end of the path without a separator |
| Transfer.Percent | file_transfer.py:109 | defines the chunk percentage bytes/size*100; `TransferFacts.PercentMonotone` states its properties |
| Transfer.Callbacks | file_transfer.py:100-110 | defines the run of chunk callbacks; `TransferFacts.ChunkProgress`, `ChunksReportPercent` and `CallbacksFrame` state what it reports and what it leaves alone |
| Transfer.IsCallbackError | file_transfer.py:131 | defines the test on the message text; `TransferFacts.MentionOfCallbackTakesFallback` and `NoLetterKNoFallback` state when it holds |
| Transfer.TakesFallback | file_transfer.py:129-136 | defines the fallback decision on the error kind; `TransferFacts.TakesFallbackTestsText` states it agrees with the text test |
| Transfer.UploadEntries | file_transfer.py:235-243 | defines the loop over the listed entries; `TransferFacts.UploadEntriesFollowPlan` and `UploadEntriesRemotePathsSlashed` state what it does |
| Transfer.UploadEntry | file_transfer.py:236-243 | defines one entry: a directory recurses and a file is uploaded; `TransferFacts.UploadEntryFollowsPlan` and `UploadEntryRemotePathsSlashed` state what it does |
| Transfer.DownloadEntries | file_transfer.py:273-281 | defines the loop over the remote listing; `TransferFacts.DownloadEntriesFollowPlan` and `DownloadEntriesRemotePathsSlashed` state what it does |
| Transfer.DownloadEntry | file_transfer.py:274-281 | defines one entry: a directory recurses and a file is downloaded; `TransferFacts.DownloadEntryFollowsPlan` and `DownloadEntryRemotePathsSlashed` state what it does |
| Transfer.TransferringMessage | file_transfer.py:316 | defines the announcement "Transferring (i+1/total): name"; `BatchFacts.JobStepReports` states it is each job's first report and `Text.ParseNatToString` that its numbers read back |
| Transfer.EntryFor | file_transfer.py:334-335 | defines a job's log entry; `BatchFacts.CalmBatchLogsEachSuccess` and `DirectoryUploadLoggedAsOneEntry` state when and with which name and size it is logged |
| Transfer.BatchPercent | file_transfer.py:342 | defines the per-job percentage; `BatchFacts.BatchPercentRises` states its properties |
| Transfer.FinalStatus | file_transfer.py:346-350 | defines the closing status; `BatchFacts.CancelledBatchReportsCancelled` and `CalmBatchCompletes` state which one a batch reports |
| Transfer.Join | file_transfer.py:275-276 | the joined path is the directory, then the separator exactly when the directory is non-empty and does not already end in one, then the name |
| Transfer.Basename | file_transfer.py:335 | defines `os.path.basename`; `TransferFacts.BasenameIsLastPart` states what it returns |
| Transfer.SingleFile | file_transfer.py:78-142 | defines `upload_file` (and `download_file`, file_transfer.py:144-208, with `get`); its effects are stated by `TransferFacts.SingleFileRequests` and the lemmas beside it |
| Transfer.UploadDir | file_transfer.py:210-249 | defines `upload_directory`; `TransferFacts.UploadFollowsPlan` and `WalkResultIgnoresEntries` state what it does |
| Transfer.DownloadDir | file_transfer.py:251-287 | defines `download_directory`; `TransferFacts.DownloadFollowsPlan` and `WalkResultIgnoresEntries` state what it does |
| Transfer.RunJob | file_transfer.py:322-329 | defines the dispatch of one job; `BatchFacts.RunJobResultIgnoresHistory` and `RunJobKeepsLogAndEvents` state its effects |
| Transfer.JobStep | file_transfer.py:314-344 | defines one pass of the worker loop; `BatchFacts.JobStepReports` states what it does |
| Transfer.JobsFrom | file_transfer.py:310-344 | defines the worker loop; the cancellation and calm-batch lemmas of `BatchFacts` state what it does |
| Transfer.Batch | file_transfer.py:303-356 | defines the worker body; `BatchFacts.CalmBatchLogsEachSuccess`, `CalmBatchCompletes` and `CancelledBatchReportsCancelled` state what it does |
| BatchFacts.JobsAfterCancelNeverRun | file_transfer.py:310-312 | jobs from the cancel point on never run: batches agreeing on the earlier jobs end in the same state |
| BatchFacts.BatchIgnoresJobsAfterCancel | file_transfer.py:310-312 | the same for the whole worker, final status included |
| BatchFacts.CancelPointReachedEndsCancelled | file_transfer.py:310-312 | a batch whose cancel point is reached ends with the flag set |
| BatchFacts.CancelledBatchReportsCancelled | file_transfer.py:346-356 | a cancelled batch reports "Transfer cancelled" last and leaves the flag clear |
| BatchFacts.CancelledBeforeFirstJob | file_transfer.py:305-312 | cancelled before the first check: nothing is requested or logged, and only the final status is reported |
| BatchFacts.BatchPercentRises | file_transfer.py:341-344 | the per-job percentage rises with the job index and is 100 after the last job |
| BatchFacts.CalmJobsEndAtHundred | file_transfer.py:310-344 | without cancellation every job runs and the last progress report is 100 |
| BatchFacts.CalmBatchCompletes | file_transfer.py:341-350 | without cancellation the batch ends with a 100 report and then "Transfer completed" |
| BatchFacts.SingleFileKeepsLogAndEvents | file_transfer.py:78-142 | a file transfer writes no log entry and keeps the earlier observer calls in front |
| BatchFacts.UploadWalkKeepsLogAndEvents | file_transfer.py:210-249 | an upload walk writes no log entry for any file below it and keeps the earlier observer calls in front |
| BatchFacts.DownloadWalkKeepsLogAndEvents | file_transfer.py:251-287 | a download walk writes no log entry and keeps the earlier observer calls in front |
| BatchFacts.RunJobKeepsLogAndEvents | file_transfer.py:322-329 | whichever transfer a job dispatches to, it writes no log entry and keeps the earlier observer calls |
| BatchFacts.CallbacksOutcomeIgnoresHistory | file_transfer.py:101-110 | what the chunk callbacks raise, and whether they leave the flag set, depends only on the flag they start with |
| TransferFacts.CallbacksRaiseOnlyTheirOwn | file_transfer.py:101-110 | the callbacks raise only the cancellation or the division error |
| BatchFacts.PlainErrorFails | file_transfer.py:126-142 | a `put`/`get` that raises an error not mentioning "callback" fails |
| BatchFacts.RunJobResultIgnoresHistory | file_transfer.py:322-329 | whether a job succeeds depends on the session, the job and the flag, not on earlier events, requests or log |
| BatchFacts.JobStepReports | file_transfer.py:314-344 | a job is announced first; if the flag is still clear after it, it is logged exactly when it succeeded and its batch percentage is the last report; if its stream set the flag, nothing is logged for it; without cancel requests the flag stays clear |
| BatchFacts.StreamCancelStopsLaterJobs | file_transfer.py:310-312 | once a job's stream sets the flag, no later job starts, whatever the later jobs are, and that job is not logged |
| BatchFacts.CalmJobsLogEachSuccess | file_transfer.py:310-344 | without cancellation the loop appends one entry per successful job, in job order |
| BatchFacts.CalmBatchLogsEachSuccess | file_transfer.py:331-335 | without cancellation the batch's log is the old log with the entries of exactly the successful jobs appended, keeping the last 100 |
| BatchFacts.DirectoryUploadLoggedAsOneEntry | file_transfer.py:323-335 | an uploaded directory is logged as one entry under its own basename and size |
| BatchFacts.DirectoryDownloadIsNotWalked | file_transfer.py:328-329 | whatever the server answers, a downloaded directory is only requested as a file (at most once more without callback): no makedirs, no entry fetched; an error not mentioning "callback" logs nothing |
| BatchFacts.DirectoryDownloadRefused | file_transfer.py:310-350 | a directory refused outright gives one request, the announcement, 100 and "Transfer completed", and nothing logged |
| TransferLog.Appended | file_transfer.py:451-455 | defines one `log_transfer` append; `AppendedIsNewestSuffix` states what it keeps |
| TransferLog.AppendedIsNewestSuffix | file_transfer.py:451-455 | after an append the log holds the newest min(n+1, 100) entries, with the new one last |
| TransferLog.AppendedToFullLogEvictsOldest | file_transfer.py:454-455 | appending to a full log drops exactly the oldest entry |
| TransferLog.AppendedAllIsTrimmed | file_transfer.py:451-455 | appends one at a time leave the last 100 of everything appended |
| TransferLog.HundredAndOneAppendsDropTheFirst | file_transfer.py:453-455 | after 101 appends to an empty log, 100 remain and the first is gone |
| Formatting.FormatTime | file_transfer.py:416-431 | defines `format_time` on whole seconds; `FormatTimeReadsBack` states what the text means |
| Formatting.FormatTimeReadsBack | file_transfer.py:426-431 | a rendered duration reads back as its seconds, except that from one hour on the seconds within the minute are dropped |
| Formatting.FormatTimeExamples | file_transfer.py:416-431 | 45 renders as "45s", 125 as "2m 5s" and 3700 as "1h 1m" |
| Formatting.FormatSize | file_transfer.py:395-414 | defines `format_size` on whole bytes; `FormatSizeMeaning` states what the text means |
| Formatting.UnitOfIsLargestReached | file_transfer.py:405-414 | the unit chosen is the largest of B, KB, MB and GB that the size reaches |
| Formatting.RoundHalfEvenIsNearest | file_transfer.py:410-414 | the tenths shown are within half a tenth of the exact quotient, and ties go to even |
| Formatting.FormatSizeMeaning | file_transfer.py:405-414 | below 1024 the exact byte count; otherwise the size in its unit to the nearest tenth |
| Formatting.FormatSizeExamples | file_transfer.py:395-414 | 0 renders as "0 B", 1536 as "1.5 KB", 1280 as "1.2 KB" and 1048576 as "1.0 MB" |
| Formatting.IsDirectory | file_transfer.py:383-393 | defines `is_directory`; `IsDirectoryIffBit14` states what it tests |
| Formatting.IsDirectoryIffBit14 | file_transfer.py:393 | is_directory holds exactly when bit 14 (octal 040000) of the mode is set |
| Formatting.IsDirectoryOnFileTypes | file_transfer.py:383-393 | directory modes count and regular files and links do not; block devices and sockets count too |
| Text.NatToString | file_transfer.py:316 | the rendering is all digits with no leading zero |
| Text.ParseNatToString | file_transfer.py:316 | a rendered number reads back as itself |
| Text.Lower | file_transfer.py:131 | lower-casing keeps the length and maps each ASCII capital to its small letter |
| Text.ContainsIffOccurs | file_transfer.py:131 | the substring test holds exactly when some slice equals the pattern |
| Config.Setting | config_manager.py:186-198 | the stored value for a present key and the caller's default otherwise, also when the settings map is missing |
| Config.FirstIndex | config_manager.py:154-158 | the index of the first profile with the name, or none exactly when no profile has it |
| Config.Removed | config_manager.py:137-138 | the kept profiles are exactly those of another name |
| Config.Names | config_manager.py:227-228 | one name per profile, in list order |
| Config.DefaultConfig | config_manager.py:48-64 | defines the default configuration; `DefaultConfigContents` states its contents |
| Config.FirstNamed | config_manager.py:154-158 | defines the search of `get_connection`; `FirstNamedIsFirstMatch` states what it returns |
| Config.Upserted | config_manager.py:112-118 | defines the for/else loop of `add_connection`; `UpsertReplacesInPlace` and `UpsertAppendsNewName` state its result |
| Config.DefaultConfigContents | config_manager.py:48-64 | no profiles, no last connection, and the four settings with their values; any other key gives the default |
| Config.FirstNamedIsFirstMatch | config_manager.py:154-158 | the lookup returns the first profile with the name, and none exactly when no profile has it |
| Config.UpsertReplacesInPlace | config_manager.py:112-116 | a known name replaces its first profile in place; the length and every other profile are kept |
| Config.UpsertAppendsNewName | config_manager.py:117-118 | a new name is appended at the end, so the length grows by one |
| Config.GetAfterAdd | config_manager.py:104-121 | after adding, a lookup of the name returns exactly the new profile |
| Config.AddKeepsOtherLookups | config_manager.py:112-120 | adding does not change what any other name finds |
| Config.AddTwiceIsAddOnce | config_manager.py:112-120 | adding the same profile twice equals adding it once |
| Config.RemovedKeepsOrder | config_manager.py:138 | filtering distributes over concatenation, so survivors keep their order |
| Config.RemovedAbsentIsIdentity | config_manager.py:138 | removing a name no profile has changes nothing |
| Config.RemoveIsIdempotent | config_manager.py:137-139 | removing twice equals removing once, and the name is then not found |
| Config.RemoveKeepsOtherLookups | config_manager.py:137-139 | removing one name does not change what another name finds |
| Config.NamesListFoundNames | config_manager.py:220-228 | a name is listed exactly when a lookup finds it |
| Config.SetThenGetSetting | config_manager.py:211-215 | a stored setting reads back whatever the default; other keys, profiles and the last connection are unchanged |
| Config.ConfigManager.constructor | config_manager.py:21-46 | the loaded configuration, or the default one when loading fails |
| Config.ConfigManager.GetConnections | config_manager.py:81-88 | the stored profiles, or none when the key is missing |
| Config.ConfigManager.AddConnection | config_manager.py:90-124 | the for/else loop leaves the list upserted by name and returns what saving reports |
| Config.ConfigManager.RemoveConnection | config_manager.py:126-142 | the list filtered by name; returns what saving reports |
| Config.ConfigManager.GetConnection | config_manager.py:144-158 | the linear search returns the first profile with the name, and none exactly when no profile has it |
| Config.ConfigManager.SetLastConnection | config_manager.py:160-175 | records the name and changes nothing else; returns what saving reports |
| Config.ConfigManager.GetLastConnection | config_manager.py:177-184 | the recorded last connection, if any |
| Config.ConfigManager.GetSetting | config_manager.py:186-198 | the value `Config.Setting` gives |
| Config.ConfigManager.SetSetting | config_manager.py:200-218 | creates the map if missing and stores the value; the key reads back and other keys are unchanged |
| Config.ConfigManager.GetConnectionNames | config_manager.py:220-228 | the profiles' names in list order |

## Left out

- Threads. The worker runs to completion inside `TransferFiles` instead of on a
  daemon thread. The in-progress flag is set inside the worker
  (file_transfer.py:305), so two calls made before the thread starts could both
  start. The model does not capture that race or any interleaving with the user
  beyond the cancel points it takes as input.
- The SFTP client, `connection_manager.py`, `os` and `time` are not part of
  this model. A missing SFTP client (file_transfer.py:92-94) counts as no
  session. `get_file_size` (file_transfer.py:362-381) is replaced by the size
  the job's `Node` carries.
- Engine.FileTransfer.OnChunk: assumes every observer callback is registered
  (`set_progress_callbacks`, file_transfer.py:46-63). Without a progress
  callback no percentage is computed, so an empty file would not raise.
- Speed and ETA reporting (file_transfer.py:112-124, 178-190) and the timing
  they need are left out: they are floating-point arithmetic on the clock.
- Formatting.FormatTimeReadsBack and Formatting.FormatSizeMeaning: whole
  seconds and whole bytes only. The only calls the code makes
  (file_transfer.py:116, 123, 182, 189) pass floating-point speeds and ETAs, so
  none of them is covered: `format_size(512.0)` renders "512.0 B", whereas the
  whole-byte model renders "512 B".
- Transfer.Percent and Transfer.BatchPercent: computed on exact reals. The code
  computes them in IEEE doubles (file_transfer.py:109, 175, 342), where for
  example (29/100)*100 is 28.999999999999996. The monotonicity and the exact 0
  and 100 at the ends that `TransferFacts.PercentMonotone` and
  `BatchFacts.BatchPercentRises` state also hold for the doubles; the exact
  values in between do not.
- Symbolic links. `os.path.isdir` follows links (file_transfer.py:240), so a
  link back to an enclosing directory makes `upload_directory` recurse until
  Python raises `RecursionError`. A `Transfer.Node` is a finite tree, so the
  model cannot express such a cycle.
- Timestamps and durations of log entries are inputs of each job.
- The `direction` string is modelled as `Direction`, which holds only the two
  values the GUI passes, "upload" and "download" (gui_components.py:708, 732).
  For any other string the code downloads, and then logs the raw string as the
  action with the local size of the remote path (file_transfer.py:334-335);
  the model cannot express that.
- The size a job is logged with is the size its `Node` carries. The code stats
  the source once more after the transfer (file_transfer.py:334), so a file
  that changes size during the transfer is logged with its new size there.
- A remote `Dir` node stands for an entry whose `st_mode` has bit 14 set
  (file_transfer.py:278, `Formatting.IsDirectory`). The model takes that
  classification as given, so a socket or block device on the server is walked
  as a directory, as in the code, but the mode itself is not carried.
- Exceptions caught by the worker (file_transfer.py:337-338, 352-353) and
  printed error messages: none of the modelled operations raise there, and
  `print` has no effect on the modelled state.
- Paths:
  - `os.path.join` is modelled for plain entry names only. Absolute names and
    Windows drive letters are not handled.
  - `str.lower()` is modelled for ASCII only.
- `_load_config` and `save_config` (config_manager.py:31-79). Reading and
  writing JSON are not modelled. The loaded configuration is an input of the
  constructor, and what saving reports is an input of each mutator.
- Config.ConfigManager.AddConnection and the other mutators: the `except`
  branches (config_manager.py:122-124, 140-142, 173-175, 216-218) are not
  modelled. A loaded profile always has a name here, and setting values are
  strings, booleans or integers.
- Config.ConfigManager.GetSetting: the default of `None` when no default is
  passed (config_manager.py:186) cannot be expressed, because `Value` has no
  null; callers always pass a default here.
- Config.ConfigManager.GetConnections: returns the list as a value. In the
  source it is the live list, so the model does not capture changes a caller
  makes through it.
- The GUI and `main.py` are not part of this model.
