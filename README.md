# Video converter: conversion-job bookkeeping

This project is a Dafny model of the conversion core of a Next.js video
converter. The converter turns uploaded videos into HEVC Matroska (`.mkv`)
files. The model covers the following parts:

- **Progress store** (`progressStore.ts`). A process-wide map from
  conversion id to `{ progress, status }`, kept on the global scope. Reading
  an unknown id gives `{ 0, 'não encontrado' }`. The store is a class whose
  map is a field. A ghost history of writes and deletions records what a
  poller can observe over time.
- **Background endpoint** (`start/route.ts`).
  - `POST` registers a job in `conversionJobs` and starts
    `runConversionInBackground`.
  - That function tries the hardware strategy (NVENC) first, then the
    software strategy (CPU) only if NVENC failed.
  - While a strategy runs, each engine percent is clamped to [15, 95].
  - It writes 98 and 100 'concluído' on success and 0 'erro' on every
    failure.
- **Synchronous endpoint** (`route.ts`). It converts within the request,
  races the conversion against an 8-minute timer, and answers with the file
  or with an error and a suggestion chosen by keyword.
- **Download endpoint** (`download/route.ts`). It answers 400, 404, 202
  with the record, the file, or 500. It removes delivered and failed jobs,
  and expires the record after a delivery.
- **Progress endpoint** (`progress/route.ts`). It answers 400, or 200 with
  the shared store's record.
- **Status endpoint** (`status/route.ts`). It has a private map of its own,
  which the conversion endpoints never write.
- **Browser side**:
  - the progress context (`ProgressContext.tsx`);
  - the upload page's helpers (`DragDrop.tsx`): duration formatting,
    file-type checks, the video list operations, adding dropped or picked
    files, and synchronising list entries with the progress map;
  - the in-browser converter hook (`useFFmpeg.ts`).

## How things are modelled

The engine, the clock, the id generator and the file system are given as
parameters:

- An engine run is a `Run`: the percents it reports, then `End` or
  `Error(message)`.
- A request's environment is a script. It says whether fluent-ffmpeg loads,
  how each strategy runs, whether the output file exists, which side of the
  timeout race wins, and the bytes produced.
- Fresh ids and file names generated by the handlers are parameters.

Each handler is a method. It changes the store and the job registry, and
its `ensures` ties the new state to a function of the inputs. The
functions are then the subject of the lemmas.

`JobLifecycle.Consistent` relates `conversionJobs` to the progress map:

- every job has a record;
- a pending job's record is not 'concluído';
- a resolved job's record is 100 'concluído';
- a rejected job's record is 0 'erro'.

The background and delivery endpoints and the expiry timer keep this
relation when the background endpoint starts its jobs under fresh ids.
The synchronous endpoint keeps it as long as the id its client chooses
names no registered job (`JobLifecycle.SyncKeepsConsistent`); nothing in
the code checks that, and a collision breaks the relation
(`JobLifecycle.SyncUnderPendingJobBreaksConsistent`).

The ffmpeg.wasm library is a script as well. Each of its calls (load,
write, exec, delete) has a given `Outcome`. The hook is a class with the
hook's state and the instance's virtual files.

### Behaviour worth knowing

- **Two strategies, in order.** The background and synchronous endpoints
  run `hevc_nvenc`, and `libx265` only when it fails
  (`StartRoute.CpuOnlyAfterNvencFails`, `ConvertRoute.CpuOnlyAfterNvencFails`).
- **Progress is not monotonic.** Within a phase the value written follows
  the engine and can go down (`StartRoute.ProgressMayRegressWithinPhase`).
  On the switch to CPU it drops back to 15 (`StartRoute.FloorAtSwitch`).
  The synchronous endpoint writes the engine's percent unclamped
  (`ConvertRoute.ProgressNotClamped`).
- **The download endpoint reads the shared store.** It imports a progress
  map from the background endpoint that that module does not export. The
  model takes it to be the shared progress store.
- **The timer and the conversion outlive the request.** The synchronous
  endpoint never clears its timer and never kills a conversion that lost
  the race. A record can therefore end at 0 'erro' after a 200, or at
  100 'concluído' after a 500 (`ConvertRoute.TimerOverwritesOutcome`,
  `ConvertRoute.TimeoutDoesNotCancel`).
- **A failed background job is never reported as failed.** Its record is
  0 'erro', which is not 'concluído', so every fetch answers 202. The 500
  branch of the download endpoint is never reached for it
  (`JobLifecycle.RejectedNeverDelivered`).
- **A dotless name counts as its own extension.** A file named "ts", with
  no MIME type, is taken as a video
  (`DragDrop.DotlessNameIsItsExtension`).

## Model

| member | source | states |
|---|---|---|
| ProgressStore.Store.constructor | src/app/api/convert-video/progressStore.ts:6 | a new store is empty and its empty history explains it |
| ProgressStore.GlobalScope.constructor | src/app/api/convert-video/progressStore.ts:2-3 | before the module first loads, no store is registered on the global scope |
| ProgressStore.InitProgressStore | src/app/api/convert-video/progressStore.ts:6-10 | a store already registered is reused; otherwise a fresh empty store is created and registered |
| ProgressStore.InitTwice | src/app/api/convert-video/progressStore.ts:6-10 | loading the module twice yields one and the same store, which stays registered |
| ProgressStore.Store.UpdateProgress | src/app/api/convert-video/progressStore.ts:12-13 | the id's entry becomes exactly `{ progress, status }`; no other entry changes; the write is appended to the history |
| ProgressStore.Store.GetProgress | src/app/api/convert-video/progressStore.ts:19-20 | the stored record for a known id, `{ 0, 'não encontrado' }` for an unknown one; nothing changes |
| ProgressStore.Store.Delete | src/app/api/convert-video/download/route.ts:43-44 | the id's entry is removed; no other entry changes; the deletion is appended to the history |
| ProgressStore.Store.UpdateAll | src/app/api/convert-video/progressStore.ts:12-13 | a run of writes under one id leaves that id holding the last record written, and appends every write to the history in order |
| ProgressStore.ApplyWrites | src/app/api/convert-video/progressStore.ts:12-13 | performing a run of writes under one id on any map gives that id the last record written and leaves every other id as it was |
| ProgressStore.ExplainsAfterWrites | src/app/api/convert-video/progressStore.ts:12-13 | when the map is what its history produces, it still is after a run of writes |
| ProgressStore.ExplainsAfterErase | src/app/api/convert-video/download/route.ts:43-44 | when the map is what its history produces, it still is after a deletion |
| ProgressStore.UnknownIdReadsDefault | src/app/api/convert-video/progressStore.ts:19-20 | an id with no entry reads as progress 0, status 'não encontrado' |
| ProgressStore.ReadAfterWrite | src/app/api/convert-video/progressStore.ts:12-20 | a read after `updateProgress(id, p, s)` gives exactly `{ p, s }`, with no clamping or validation |
| ProgressStore.LastWriteWins | src/app/api/convert-video/progressStore.ts:12-13 | two writes to one id leave the same map as the second alone |
| ProgressStore.WriteLeavesOthers | src/app/api/convert-video/progressStore.ts:12-13 | a write to one id changes neither the presence nor the value of any other id |
| UploadNaming.SanitizeMeaning | src/app/api/convert-video/start/route.ts:239 | sanitising keeps the length, keeps every letter, digit, '.' and '-' in place, and replaces every other character by '_' |
| UploadNaming.SanitizeIdempotent | src/app/api/convert-video/route.ts:98 | a name made only of safe characters is kept as it is, and sanitising twice is sanitising once |
| UploadNaming.Sanitize | src/app/api/convert-video/start/route.ts:239 | the sanitised name has the original's length and is made only of letters, digits, '.', '-' and '_' |
| UploadNaming.InputFileName | src/app/api/convert-video/start/route.ts:239 | the temporary input name is the prefix, a '-', then the sanitised original name |
| UploadNaming.OutputFileName | src/app/api/convert-video/route.ts:99 | a non-empty requested output name is used as it is; an absent or empty one becomes the generated name plus ".mkv"; the result is never empty |
| StartRoute.SettleJob | src/app/api/convert-video/start/route.ts:13-17 | settling a job's promise changes only that job's state, keeps the set of job ids, and does not bring back a removed job |
| StartRoute.JobRegistry.constructor | src/app/api/convert-video/start/route.ts:13-17 | `conversionJobs` starts empty |
| StartRoute.JobRegistry.Register | src/app/api/convert-video/start/route.ts:259-263 | the job is stored under its conversion id, and no other job changes |
| StartRoute.JobRegistry.Remove | src/app/api/convert-video/download/route.ts:40 | the job is removed, and no other job changes |
| StartRoute.JobRegistry.Settle | src/app/api/convert-video/start/route.ts:203-217 | the registry equals the settled map of the old one |
| StartRoute.Clamp | src/app/api/convert-video/start/route.ts:97 | the result lies in [15, 95], equals a percent already in that range, and is 15 below it and 95 above it |
| StartRoute.Launch | src/app/api/convert-video/start/route.ts:43-61 | without fluent-ffmpeg it writes 0 'erro' and the job is rejected with 'fluent-ffmpeg não está instalado'; otherwise it writes 15 'conversão NVENC' and the job is pending |
| StartRoute.Post | src/app/api/convert-video/start/route.ts:221-270 | without a file: 0 'iniciando', 0 'erro', a 400 and no job; with one: 0, 5, 10, the launch writes, a job registered under the id with its output name and start time, the temporary file written, and a `started` answer |
| StartRoute.RunStrategy | src/app/api/convert-video/start/route.ts:94-109 | one clamped write per engine event under the strategy's label, then 95 'finalizando' on 'end'; returns true exactly when the run ended well |
| StartRoute.TryCpu | src/app/api/convert-video/start/route.ts:116-160 | the CPU tier opens with 15 'conversão CPU', writes its events, and adds 0 'erro' when it fails too; true exactly when it ended well |
| StartRoute.Fallback | src/app/api/convert-video/start/route.ts:165-181 | NVENC runs, then CPU only when NVENC failed; no error when either ended well, otherwise the message naming both causes |
| StartRoute.Finish | src/app/api/convert-video/start/route.ts:185-217 | a fallback failure rejects with its message; a missing output file rejects with 'Arquivo de saída não foi criado'; otherwise 98 and 100 'concluído' are written and the job resolves with the bytes |
| StartRoute.RunInBackground | src/app/api/convert-video/start/route.ts:54-217 | the continuation's writes are appended, and the job is settled with the background outcome |
| StartRoute.StrategyWritesShape | src/app/api/convert-video/start/route.ts:94-105 | a strategy's writes are one per event plus one on 'end'; they lie in [15, 95], carry its label or 'finalizando', and end with 95 'finalizando' when it ended well |
| StartRoute.PhaseWritesClamped | src/app/api/convert-video/start/route.ts:94-98 | every record of the background run written under a strategy label lies in [15, 95] |
| StartRoute.CpuOnlyAfterNvencFails | src/app/api/convert-video/start/route.ts:165-175 | a 'conversão CPU' record is written if and only if NVENC failed |
| StartRoute.FloorAtSwitch | src/app/api/convert-video/start/route.ts:116-119 | after NVENC fails, the next write is exactly 15 'conversão CPU', following all of NVENC's writes |
| StartRoute.FallbackShape | src/app/api/convert-video/start/route.ts:101-105 | the fallback chain never reaches 100 or 'concluído', and when it encoded it ends with 95 'finalizando' |
| StartRoute.CompletionOnlyOnSuccess | src/app/api/convert-video/start/route.ts:192-205 | a record with 100, or with 'concluído', is written if and only if the job resolves; its last three writes are then 95 and 98 'finalizando' and 100 'concluído' |
| StartRoute.FailureEndsInError | src/app/api/convert-video/start/route.ts:185-216 | every rejected run once fluent-ffmpeg has loaded ends with two writes of 0 'erro', the failing step's and the catch's; an encoded run without output file is rejected with the missing-output message |
| StartRoute.BothCausesReported | src/app/api/convert-video/start/route.ts:176-180 | when both strategies fail, the rejection message contains the NVENC cause and the CPU cause |
| StartRoute.PercentsInRange | src/app/api/convert-video/start/route.ts:54-253 | every percent written by `POST` and the background run lies in [0, 100] |
| StartRoute.ProgressMayRegressWithinPhase | src/app/api/convert-video/start/route.ts:94-98 | one example, not a property of all runs: engine events 50 then 20 are written as 50 then 20, so progress can go down within a phase |
| StartRoute.StartedJobTrace | src/app/api/convert-video/start/route.ts:226-256 | a started job's record passes through 0 'iniciando', 5 'preparando', 10 'convertendo', 15 'conversão NVENC', then the continuation |
| StartRoute.RecordAfterPost | src/app/api/convert-video/start/route.ts:226-263 | right after `POST` a poll reads 15 'conversão NVENC' for a started job and 0 'erro' otherwise |
| StartRoute.RecordAfterBackground | src/app/api/convert-video/start/route.ts:185-216 | once the background run settles, a poll reads 100 'concluído' on success and 0 'erro' on failure |
| ConvertRoute.AwaitRace | src/app/api/convert-video/route.ts:250-264 | the conversion's writes up to the race's end, plus the timer's 0 'erro' if it won; returns the error caught, or none |
| ConvertRoute.Convert | src/app/api/convert-video/route.ts:113-296 | 5 'preparando', 10 'convertendo', the race's writes, and the catch's 0 'erro' on failure; returns the error caught |
| ConvertRoute.Prepare | src/app/api/convert-video/route.ts:113-119 | writes 5 'preparando', then 10 'convertendo' |
| ConvertRoute.Post | src/app/api/convert-video/route.ts:33-337 | the answer and every write before it are those of the request's script; temporary files are named only when the request gets as far as converting |
| ConvertRoute.ConversionId | src/app/api/convert-video/route.ts:35-39 | the client's conversion id when it is non-empty, otherwise the generated one |
| ConvertRoute.Respond | src/app/api/convert-video/route.ts:33-337 | the response carries the conversion id; its status is 200, 400 or 500; 200 exactly when a file is sent, which is exactly when the request proceeds and nothing failed; 400 exactly when the module loads but no file was sent |
| ConvertRoute.Suggestion | src/app/api/convert-video/route.ts:304-320 | one of the five suggestions; the fluent-ffmpeg one whenever the message mentions fluent-ffmpeg |
| ConvertRoute.Aftermath | src/app/api/convert-video/route.ts:250-258 | after the response, either the timer's 0 'erro' or the rest of the conversion that lost the race is written |
| ConvertRoute.FirstMatchIsFirst | src/app/api/convert-video/route.ts:304-320 | the suggestion is that of a matching rule with no matching rule before it |
| ConvertRoute.FirstMatchNone | src/app/api/convert-video/route.ts:304-320 | when no rule matches, the fallback suggestion is given |
| ConvertRoute.MatchesOne | src/app/api/convert-video/route.ts:311 | a one-keyword rule matches exactly the messages containing that keyword |
| ConvertRoute.MatchesTwo | src/app/api/convert-video/route.ts:313-315 | a two-keyword rule matches exactly the messages containing either keyword |
| ConvertRoute.SuggestionFollowsRules | src/app/api/convert-video/route.ts:304-320 | the catch block's chain of `includes` tests is the first-match reading of the ordered rule table |
| ConvertRoute.TimeoutMessageLacksF | src/app/api/convert-video/route.ts:250-255 | the timeout message has no 'f', so it cannot mention fluent-ffmpeg |
| ConvertRoute.TimeoutSuggested | src/app/api/convert-video/route.ts:313-314 | a timeout gets the timeout suggestion |
| ConvertRoute.NoKeywordSuggestsDefault | src/app/api/convert-video/route.ts:318-319 | a message without 'E', 't' or 'y' contains no keyword and gets the default suggestion |
| ConvertRoute.OutputMissingSuggestsDefault | src/app/api/convert-video/route.ts:262-264 | a missing output file gets the default suggestion |
| ConvertRoute.ResponseCarriesId | src/app/api/convert-video/route.ts:33-40 | every response carries the client's non-empty conversion id, or else the generated one |
| ConvertRoute.OpeningWrites | src/app/api/convert-video/route.ts:46-119 | the record goes 0, 5, 10 before encoding; without the module (500 with the wasm suggestion) or without a file (400) it goes from 0 'iniciando' to 0 'erro' |
| ConvertRoute.ProgressNotClamped | src/app/api/convert-video/route.ts:163-166 | one example, not a property of all runs: engine events 7 and 120 are written as 7 and 120, where the background endpoint writes 15 and 95 |
| ConvertRoute.CompletionBeforeOutputCheck | src/app/api/convert-video/route.ts:168-171 | a run that ends well but leaves no file has written 100 'concluído', yet ends at 0 'erro' with a 500 |
| ConvertRoute.ConversionEndsInCompletion | src/app/api/convert-video/route.ts:168-171 | a conversion that ended well has 100 'concluído' as its last write |
| ConvertRoute.CpuOnlyAfterNvencFails | src/app/api/convert-video/route.ts:231-245 | a 'conversão CPU' record is written if and only if NVENC failed and the CPU engine reported progress |
| ConvertRoute.BothCausesReported | src/app/api/convert-video/route.ts:242-245 | when both strategies fail, the caught message contains both causes |
| ConvertRoute.ResponseMatchesLastWrite | src/app/api/convert-video/route.ts:277-301 | a 200 carries the file under the output name and follows 100 'concluído'; every other response follows 0 'erro' |
| ConvertRoute.TimeoutResponse | src/app/api/convert-video/route.ts:250-258 | when the timer wins, the last two writes are 0 'erro' and the answer is 500 with the timeout message and suggestion |
| ConvertRoute.TimerOverwritesOutcome | src/app/api/convert-video/route.ts:250-253 | the timer is never cleared: after a conversion that won the race, the record ends at 0 'erro' |
| ConvertRoute.TimeoutDoesNotCancel | src/app/api/convert-video/route.ts:250-258 | after a timeout, a conversion that goes on to end well leaves 100 'concluído' although the answer was 500 |
| DownloadRoute.StatusCode | src/app/api/convert-video/download/route.ts:8-71 | 200 exactly for the file, 202 exactly for a job still running, and always one of 200, 202, 400, 404, 500 |
| DownloadRoute.Decide | src/app/api/convert-video/download/route.ts:8-37 | 400 exactly without an id; 404 exactly for an id with no job; 202 only for a job whose record is present and not 'concluído'; the handler waits on the promise only for a job with no record or a 'concluído' one, and waits on a pending promise exactly then |
| DownloadRoute.Resume | src/app/api/convert-video/download/route.ts:37-71 | after the promise settles, the job is removed; resolved: the file under its output name; rejected: 0 'erro' written and a 500 with the details |
| DownloadRoute.Get | src/app/api/convert-video/download/route.ts:4-71 | the answer is decided on the maps as they were; a delivered or failed job is removed; only a failure writes, 0 'erro' |
| DownloadRoute.ExpireProgress | src/app/api/convert-video/download/route.ts:43-44 | 30 seconds after a delivery the record is removed, and a read then gives the default |
| DownloadRoute.StillRunningKeepsJob | src/app/api/convert-video/download/route.ts:25-32 | a 202 returns the stored, non-'concluído' record and changes neither map |
| DownloadRoute.AbsentRecordNotInProgress | src/app/api/convert-video/download/route.ts:25 | a job with no record is not taken as in progress: the handler goes on to its promise |
| DownloadRoute.SecondFetchNotFound | src/app/api/convert-video/download/route.ts:40-63 | after a delivery or a failure, fetching the same id is answered with 404 |
| DownloadRoute.DeliveryKeepsRecord | src/app/api/convert-video/download/route.ts:37-46 | a delivery removes the job and keeps the record; once expired, the record reads as the default |
| DownloadRoute.FailureAnswer | src/app/api/convert-video/download/route.ts:59-71 | a rejected job is answered with 500 and its details, its record set to 0 'erro', its job removed |
| ProgressRoute.Get | src/app/api/convert-video/progress/route.ts:4-44 | the answer is decided on the shared store as it is, and nothing changes |
| ProgressRoute.AnswerForId | src/app/api/convert-video/progress/route.ts:26-44 | a non-empty id is always answered with 200 and the stored record, or `{ 0, 'não encontrado' }` |
| ProgressRoute.MissingIdOnly | src/app/api/convert-video/progress/route.ts:11-24 | the answer is 400 exactly when the id is absent or empty |
| ProgressRoute.Query | src/app/api/convert-video/progress/route.ts:11-34 | 400 exactly when the id is absent or empty; a progress answer carries the id and the record the store reads for it |
| ProgressRoute.PollAfterWrite | src/app/api/convert-video/progress/route.ts:26-34 | a poll after `updateProgress(id, p, s)` answers id, p and s |
| StatusRoute.Respond | src/app/api/convert-video/status/route.ts:12-22 | a found answer carries exactly the local record of the requested id |
| StatusRoute.StatusStore.constructor | src/app/api/convert-video/status/route.ts:6 | the endpoint's private map starts empty |
| StatusRoute.StatusStore.UpdateProgress | src/app/api/convert-video/status/route.ts:26-28 | the private map's entry for the id becomes `{ progress, status }` |
| StatusRoute.StatusStore.Get | src/app/api/convert-video/status/route.ts:8-23 | the answer is decided on the private map, and nothing changes |
| StatusRoute.AnswerForId | src/app/api/convert-video/status/route.ts:12-22 | 400 without an id; 404 for an id without a local record; 200 with the record otherwise |
| StatusRoute.SharedWriteInvisible | src/app/api/convert-video/status/route.ts:6 | a write to the shared store is not seen here: the id is still answered with 404 while the shared store reads the record |
| StatusRoute.ReadAfterLocalWrite | src/app/api/convert-video/status/route.ts:26-28 | a local write is read back by the next request |
| ProgressContext.Provider.constructor | src/contexts/ProgressContext.tsx:19 | the context's map starts empty |
| ProgressContext.Provider.UpdateProgress | src/contexts/ProgressContext.tsx:21-31 | the map becomes a copy of the previous one with the id's entry replaced |
| ProgressContext.Provider.GetProgress | src/contexts/ProgressContext.tsx:34-40 | the stored record, or `{ 0, 'não encontrado' }` for an unknown id |
| ProgressContext.UpdatedMeaning | src/contexts/ProgressContext.tsx:23-26 | after an update the id holds the new record, every other id is unchanged, and the id set grows by that id only |
| ProgressContext.UpdateSameRecord | src/contexts/ProgressContext.tsx:23-26 | writing back a stored record leaves the map equal to the previous one |
| JobLifecycle.EmptyConsistent | src/app/api/convert-video/start/route.ts:13-17 | no jobs and no records are in step |
| JobLifecycle.PostKeepsConsistent | src/app/api/convert-video/start/route.ts:221-263 | `POST` under a fresh id keeps jobs and records in step, whether or not a job is registered |
| JobLifecycle.BackgroundKeepsConsistent | src/app/api/convert-video/start/route.ts:165-217 | settling a pending job through the background run keeps jobs and records in step |
| JobLifecycle.FetchKeepsConsistent | src/app/api/convert-video/download/route.ts:4-71 | a fetch keeps jobs and records in step |
| JobLifecycle.ExpireKeepsConsistent | src/app/api/convert-video/download/route.ts:43-44 | expiring the record of a job no longer registered keeps them in step |
| JobLifecycle.UnregisteredWritesKeepConsistent | src/app/api/convert-video/progressStore.ts:12-13 | writes under an id no job is registered under keep jobs and records in step |
| JobLifecycle.SyncKeepsConsistent | src/app/api/convert-video/route.ts:33-337 | the synchronous endpoint, under an id no job is registered under, keeps jobs and records in step before and after its answer |
| JobLifecycle.SyncUnderPendingJobBreaksConsistent | src/app/api/convert-video/route.ts:35-39 | a successful synchronous conversion under the id of a pending background job leaves that job's record at 100 'concluído', out of step |
| JobLifecycle.FetchNeverWaitsOrFails | src/app/api/convert-video/download/route.ts:25-37 | when in step, a fetch never waits on a pending promise and never answers 500 |
| JobLifecycle.ResolvedDeliveredOnce | src/app/api/convert-video/download/route.ts:37-57 | when in step, a resolved job is delivered with its file and output name, and a second fetch gets 404 |
| JobLifecycle.RejectedNeverDelivered | src/app/api/convert-video/download/route.ts:25-32 | when in step, a rejected job is answered 202 with 0 'erro' and nothing changes, so the 500 branch is never reached |
| DragDrop.Decompose | src/components/DragDrop.tsx:221-223 | hours, minutes and seconds recompose the total, with minutes and seconds below 60 |
| DragDrop.DurationShown | src/components/DragDrop.tsx:225-234 | the shown parts are never empty |
| DragDrop.DurationParts | src/components/DragDrop.tsx:218-236 | `formatDuration` always shows at least one part |
| DragDrop.ShownWords | src/components/DragDrop.tsx:225-234 | the shown parts are space-free words whose unit-weighted sum is h·3600 + m·60 + s |
| DragDrop.AppendedTrimmed | src/components/DragDrop.tsx:225-236 | trimming the built-up text gives the shown parts joined by single spaces |
| DragDrop.FormatDuration | src/components/DragDrop.tsx:218-237 | the text is the duration's parts joined by single spaces |
| DragDrop.DurationRoundTrip | src/components/DragDrop.tsx:218-237 | reading the formatted duration back as hours, minutes and seconds gives the number of seconds formatted |
| DragDrop.TotalShownRoundTrip | src/components/DragDrop.tsx:245-251 | each of the three forms of the total time is its words joined by spaces, and reads back as h·3600 + m·60 + s |
| DragDrop.TotalTimeRoundTrip | src/components/DragDrop.tsx:239-252 | `formatTotalTime` reads back as the whole seconds of the milliseconds given |
| DragDrop.FormatTotalTime | src/components/DragDrop.tsx:239-252 | reading the text back as a clock gives the whole seconds of the milliseconds given |
| DragDrop.GetFileExtension | src/components/DragDrop.tsx:334-337 | 'UNKNOWN' when the name ends with '.' (or is empty); otherwise the upper-cased text after the last '.', which has no '.' |
| DragDrop.ExtensionOfDottedName | src/components/DragDrop.tsx:334-337 | the extension of "b.e", with e non-empty and dot-free, is e upper-cased |
| DragDrop.ExtensionOfUndottedName | src/components/DragDrop.tsx:334-337 | a dotless name is its own extension, and a name ending in '.' gives 'UNKNOWN' |
| DragDrop.VideoMimeTypeAccepted | src/components/DragDrop.tsx:346-349 | a MIME type starting with 'video/' makes any file valid |
| DragDrop.ExtensionDecides | src/components/DragDrop.tsx:339-349 | without a video MIME type, "b.e" is valid if and only if e lower-cased is one of the 16 video extensions |
| DragDrop.ValidityIgnoresCase | src/components/DragDrop.tsx:345-347 | validity does not depend on the case of the file name |
| DragDrop.DotlessNameIsItsExtension | src/components/DragDrop.tsx:345-349 | a dotless name is valid if and only if the MIME type is a video one or the whole name is a video extension |
| DragDrop.IsValidVideoFile | src/components/DragDrop.tsx:339-350 | a video MIME type makes a file valid; a valid file has a video MIME type or an extension of at least two characters |
| DragDrop.StripExtension | src/components/DragDrop.tsx:646 | the stripped name is a prefix of the name |
| DragDrop.OutputName | src/components/DragDrop.tsx:746 | the output name ends with ".mkv" and is the stripped name plus four characters |
| DragDrop.StripsFinalExtension | src/components/DragDrop.tsx:879 | "b.e", with e non-empty and free of '.' and '/', becomes "b", and its output name "b.mkv" |
| DragDrop.KeepsNameWithoutExtension | src/components/DragDrop.tsx:646 | a name without a final extension is kept whole |
| DragDrop.Filter | src/components/DragDrop.tsx:371-375 | the kept elements are exactly those that satisfy the test, and there are no more of them than elements |
| DragDrop.FilterMeaning | src/components/DragDrop.tsx:371-375 | the result of `filter` keeps the order of the input, and holds every element that passes the test as often as the input does and no other element |
| DragDrop.FilterUnique | src/components/DragDrop.tsx:371-375 | a sequence with both properties of `FilterMeaning` is the result of `filter`, so they characterize it |
| DragDrop.FilterConcat | src/components/DragDrop.tsx:371-375 | filtering a concatenation is concatenating the filtered parts |
| DragDrop.RemoveVideo | src/components/DragDrop.tsx:496-498 | the list keeps exactly the entries with another id, in their order, each as often as before |
| DragDrop.RemoveAbsentId | src/components/DragDrop.tsx:496-498 | removing an id that no entry has leaves the list unchanged |
| DragDrop.ToggleVideoSelection | src/components/DragDrop.tsx:500-504 | only `selected` changes, and it changes exactly for unconverted entries with that id |
| DragDrop.ToggleTwice | src/components/DragDrop.tsx:500-504 | toggling twice restores the list |
| DragDrop.SelectAllVideos | src/components/DragDrop.tsx:506-512 | converted entries are unchanged; every other entry's `selected` becomes the negation of "some are available and all available are selected" |
| DragDrop.SelectAllFlips | src/components/DragDrop.tsx:506-512 | with a video available, select-all flips between all selected and not all selected |
| DragDrop.SelectAllWithNothingAvailable | src/components/DragDrop.tsx:507-511 | with every entry converted, select-all changes nothing |
| DragDrop.ClearConvertedVideos | src/components/DragDrop.tsx:534-545 | an error exactly when nothing is converted; otherwise exactly the unconverted entries remain, in their order and each as often as before, and the count removed is positive and accounts for the rest |
| DragDrop.SelectedForConversion | src/components/DragDrop.tsx:514-519 | an error exactly when no entry is selected, idle and unconverted; otherwise exactly those entries, in list order (the order they are converted in), each as often as in the list |
| DragDrop.NewVideos | src/components/DragDrop.tsx:423-461 | one new entry per file, in order: entry i has the i-th fresh id, the i-th file's name and extension, and starts unselected, idle and unconverted |
| DragDrop.AddFiles | src/components/DragDrop.tsx:366-464 | succeeds exactly when some file is a video and the list stays within 500 entries; the old list is kept as a prefix and after it come the new entries of the video files, one per file, in order |
| DragDrop.AddFilesErrors | src/components/DragDrop.tsx:379-413 | no video file gives the source's not-a-video message; too many gives the 500-video limit message |
| DragDrop.AddedEntries | src/components/DragDrop.tsx:431-443 | every added entry comes from an offered video file, has its name and extension, and starts unselected, idle and unconverted; the k-th added entry is the k-th video file's, with the k-th fresh id |
| DragDrop.DropErrorNamesEveryFile | src/components/DragDrop.tsx:379-382 | the error for a drop without videos names every file dropped |
| DragDrop.FirstConversionFor | src/components/DragDrop.tsx:126-132 | none exactly when no pair names the video; otherwise the conversion id of the first pair that names it |
| DragDrop.FindConversionId | src/components/DragDrop.tsx:126-132 | the loop with `break` finds the first pair's conversion id |
| DragDrop.SyncVideos | src/components/DragDrop.tsx:124-154 | each entry is synchronised with the record of its first linked conversion |
| DragDrop.SyncVideo | src/components/DragDrop.tsx:134-153 | only `progress` and `converting` can change, `converting` is never turned on, and an entry not converting or without a linked conversion is returned unchanged |
| DragDrop.SyncOnlyAdvances | src/components/DragDrop.tsx:134-145 | synchronising changes only `progress` and `converting`, never turns `converting` on, and is idempotent |
| DragDrop.SyncStopsWhenFinished | src/components/DragDrop.tsx:137-142 | a converting entry whose record reads 'concluído' or 'erro' stops converting and takes the record's progress |
| DragDrop.SyncTracksRunning | src/components/DragDrop.tsx:134-143 | a converting entry linked to a non-empty id whose record is shown and still running takes the record's progress and stays converting |
| DragDrop.SyncIgnoresDefault | src/components/DragDrop.tsx:134-137 | an empty conversion id, or a record with no positive progress and status 'não encontrado' (the default of an unknown id), leaves the entry unchanged |
| DragDrop.SyncLeavesOthers | src/components/DragDrop.tsx:146-153 | an entry that is not converting, or has no linked conversion, is left unchanged |
| UseFFmpeg.InputFileName | src/hooks/useFFmpeg.ts:97 | the input name is "input." followed by the text after the last '.' |
| UseFFmpeg.EnsureMkv | src/hooks/useFFmpeg.ts:98 | the output name ends with ".mkv", and equals the requested name exactly when that already does |
| UseFFmpeg.InputNameKeepsExtension | src/hooks/useFFmpeg.ts:97 | the input name of "b.e", with e dot-free, is "input.e", the extension keeping its case |
| UseFFmpeg.EnsureMkvIdempotent | src/hooks/useFFmpeg.ts:98 | forcing the suffix twice is forcing it once |
| UseFFmpeg.LoadError | src/hooks/useFFmpeg.ts:32-78 | no error exactly when loading succeeds; every error starts with 'Erro ao carregar FFmpeg: ' |
| UseFFmpeg.Attempts | src/hooks/useFFmpeg.ts:115-124 | H.265 is always tried first |
| UseFFmpeg.EncodeFailure | src/hooks/useFFmpeg.ts:115-124 | no error exactly when H.265 or H.264 succeeds; the error reported is H.264's |
| UseFFmpeg.FilesAfter | src/hooks/useFFmpeg.ts:102-136 | the conversion touches no file but the input and the output; a failed write leaves the files as they were |
| UseFFmpeg.ConversionResult | src/hooks/useFFmpeg.ts:95-143 | every failure of a loaded conversion starts with 'Erro na conversão: ' |
| UseFFmpeg.FFmpegHook.constructor | src/hooks/useFFmpeg.ts:19-22 | no instance, not loaded, not loading, no error, no files |
| UseFFmpeg.FFmpegHook.LoadFFmpeg | src/hooks/useFFmpeg.ts:24-82 | nothing changes when a loaded instance exists; otherwise the checks, the CDN load and the plain load are tried in turn, the error is the first failure's, and loading ends false |
| UseFFmpeg.FFmpegHook.Encode | src/hooks/useFFmpeg.ts:115-124 | H.265 runs, H.264 only when it failed; the output file exists exactly when one of them succeeded |
| UseFFmpeg.FFmpegHook.CleanUp | src/hooks/useFFmpeg.ts:131-136 | the input, then the output, is deleted; a failing deletion stops the clean-up silently |
| UseFFmpeg.FFmpegHook.ConvertVideo | src/hooks/useFFmpeg.ts:84-144 | not loaded: the bare not-loaded error and no change; loaded: the script's result, with the codecs tried only when the input was written, and the files as `FilesAfter` gives them in every case (failed write, failed encoding, failed removal of the input or of the output, clean success) |
| UseFFmpeg.FallbackOnlyAfterFailure | src/hooks/useFFmpeg.ts:115-124 | H.264 runs exactly when H.265 failed |
| UseFFmpeg.CleanUpDoesNotMatter | src/hooks/useFFmpeg.ts:131-136 | the result does not depend on whether the temporary files could be removed |
| UseFFmpeg.ConversionSucceeds | src/hooks/useFFmpeg.ts:102-143 | a conversion succeeds exactly when the input is written and a codec succeeds, and then yields the encoded bytes; otherwise H.264's error is reported |
| UseFFmpeg.FailedEncodingLeavesInput | src/hooks/useFFmpeg.ts:140-143 | an encoding that fails after the input was written is thrown past the clean-up, so the input file stays with its content |
| UseFFmpeg.TemporaryFilesRemoved | src/hooks/useFFmpeg.ts:130-136 | both temporary files are gone after a successful conversion whose two removals succeed, and, for distinct names, only then; a failed first removal leaves the output holding the encoded bytes |

## Left out

- `generateContentText` (src/utils/generateContentText.ts) is not part of this model. It calls a third-party text service.
- `formatFileSize` and the other size and duration displays are left out. They use floating point.
- Timers and polling are left out: the 30-second expiry, the 8-minute race and the client's progress polling. Their effects are steps the caller performs (`DownloadRoute.ExpireProgress`, `ConvertRoute.Race`).
- Collisions of conversion ids are not prevented, only exhibited. The background endpoint writes under an id it generates, which the model takes to be fresh; the synchronous endpoint writes under the id its client sends, and nothing checks it against the registered jobs. The consistency lemmas assume an id with no registered job (`JobLifecycle.SyncUnderPendingJobBreaksConsistent` shows what a collision does).
- Concurrency is left out. Handlers run one at a time, and each ends before the next step. In particular, on the synchronous endpoint's timeout path the catch block awaits the removal of the temporary files before writing its 0 'erro', so a write of the still-running conversion can fall between the timer's 0 'erro' and the catch's; the model puts all of the losing conversion's remaining writes after the response.
- HTTP plumbing is left out: headers, CORS, content types and JSON shapes beyond their fields.
- The UI is left out: JSX, the conversion buttons, `convertToMKV` and the success messages with counts.
- File-system failures of temporary files on the server are left out, as are the 500 'Erro interno do servidor' catches they would reach (start `POST`, progress endpoint).
- `Math.round` of fractional engine percents is left out: percents are integers. Durations are whole seconds, and `formatTotalTime` takes whole milliseconds.
- Id generation (`generateId`, `Date.now()` with `Math.random()`) is left out. The ids are parameters (`freshId`, `generatedId`, `inputPrefix`).
- The codec option lists and engine command lines are left out. An engine run is only its percents and its ending.
- The `onProgress` callback of `convertVideo` and the `log` listener of `loadFFmpeg` are left out.
- Errors thrown as non-`Error` values are left out, along with the 'Erro desconhecido ao carregar FFmpeg' message.
- Console output and the `crossOriginIsolated` warning are left out.
- The hook's React state is read as current. A stale `isLoaded` captured by a closure is not modelled.
- `useProgress` outside a provider (a thrown error) is left out.
- VideoData's metadata is left out: preview, format, duration, size, file object, times and custom output. `fileObject` is always present, so the batch filter's `v.fileObject` test is dropped.
- Trimming in `formatDuration` removes only spaces, the only whitespace that text can contain.
- Case mapping is ASCII only: `toUpperCase` and `toLowerCase` change only the letters A to Z and a to z in the model.
- UploadNaming.Sanitize: replaces per Unicode code point, where the pattern `/[^a-zA-Z0-9.-]/g` (no `u` flag) replaces per UTF-16 code unit, so a character outside the Basic Multilingual Plane ("🎬") becomes one '_' in the model and two in the code. `UploadNaming.SanitizeMeaning` states the per-code-point replacement; the length it keeps is the count of code points, not of code units.
- The ffmpeg.wasm virtual file system is a map from name to bytes. Reading a file that does not exist cannot happen in the model, because a successful encoding writes the output.
- `processFiles`'s metadata reading and its 'Erro ao processar os arquivos de vídeo' catch are left out. Metadata is not modelled.
- DragDrop.StripExtension: its own contract states only that a prefix is kept. The value of the pattern `\.[^/.]+$` on every name is given by two lemmas that together cover all names: `StripsFinalExtension` for a name ending in '.' and a non-empty extension free of '/' and '.', and `KeepsNameWithoutExtension` for every other name.
