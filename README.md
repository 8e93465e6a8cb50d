# SignTrack account workflow and server bookkeeping, in Dafny

This project models the two parts of SignTrack that hold state and sequencing.

**The Account screen** (`src/pages/Account.js`) is a React component. The user ticks the traffic-sign labels they expect, moves to the upload step, picks a video, and posts it to the server. After that a simulated progress bar runs until a 10-second timer ends it and opens a dialog that compares the expected labels with the detected ones. The component is modelled as the class `AccountScreen.Account`:
- one field per `useState` value except the never-set `resultVideo`, plus `timersActive` for the two timers;
- one method per event: label toggle, Next, Back, file choice, upload start, upload reply, interval tick, final timer, the reply to the latest-video request made on mount, opening and closing the dialog, and unmount.

Each method's `ensures` gives the whole new state as an update of the old snapshot (`State() == old(State()).(...)`), so what a method leaves alone is stated too. The pure pieces are functions with lemmas:
- the `selectedLabels` updater and the suggested-label projection (`Labels`);
- the dialog's marking (`Labels`);
- the progress updater and `getStatusText` (`Progress`);
- the player and download locations (`Playback`).

**The Flask server** (`app.py`) has two pieces of state:
- a counter file, modelled as `Server.CounterFile`;
- the processed folder, modelled as a map from file name to modification time and parsed JSON content (`ProcessedFolder.Folder`).

The newest-video lookup and the newest-first listing are methods with loops over that map. The result is a newest file, or the folder's videos sorted by modification time. The order among files with equal times is left open, because the glob order it depends on is unspecified. `process_video` is a method of `Server.Server`:
- it checks the request;
- it takes the next number and saves it before processing.

Inputs from outside become parameters:
- server replies (`AccountScreen.Reply`);
- the chosen files;
- the random increment, constrained to [1, 20];
- the text of a Python exception.

The React effect on `processing` is the pure function `AccountScreen.EffectTimers`. The interval and the final timer are always created and cleared together, so a single flag, `timersActive`, stands for both.

Where the code differs from a tidier reading of the workflow, the model follows the code:
- The workflow phase is held in separate flags (`activeStep`, `uploading`, `processing`), not in a single phase value.
- No error message is kept.
- After the latest-video reply the step stays 0.
- The dialog shows two columns, suggested and detected, each in input order. It does not show one merged list.
- `uploading` is cleared only when an upload fails. After a successful run the Process button therefore stays hidden.
- Nothing guards a late reply.

## Model

| member | source | states |
|---|---|---|
| Labels.Keys | src/pages/Account.js:196-199 | the object's keys in insertion order: one per entry, the i-th key being the i-th entry's |
| Labels.Flag | src/pages/Account.js:357 | the checkbox's `selectedLabels[label]`, defaulting to false: an absent key reads false, and a present key reads a flag stored with it |
| Labels.FlagOfKeys | src/pages/Account.js:357 | with distinct keys, reading an entry's key gives exactly that entry's flag |
| Labels.AnySelected | src/pages/Account.js:203 | `Object.values(selectedLabels).some(v => v)`: with distinct keys, true iff some key reads true |
| Labels.Toggle | src/pages/Account.js:196-199 | the updater keeps the length for a known key and adds one entry for a new key; its meaning is in Labels.ToggleFlipsOnlyThatLabel and Labels.ToggleKeepsKeyOrder |
| Labels.Suggested | src/pages/Account.js:229-233 | the projection has no more entries than the object has keys and lists only keys; exactness, order and no repeats are in Labels.SuggestedIffFlag, Labels.SuggestedInKeyOrder and Labels.SuggestedDistinct |
| Labels.ToggleFlipsOnlyThatLabel | src/pages/Account.js:195-200 | toggling flips that label's flag, an absent flag reading as false, and every other label's flag is unchanged |
| Labels.ToggleKeepsKeyOrder | src/pages/Account.js:195-200 | a known label keeps its key position; a new label is appended last |
| Labels.ToggleKeepsDistinct | src/pages/Account.js:195-200 | the object's keys stay distinct after a toggle |
| Labels.SuggestedIffFlag | src/pages/Account.js:229-233 | a label is in the suggested list iff its flag is true |
| Labels.SuggestedElements | src/pages/Account.js:471-473 | the set of suggested labels is exactly the set of labels flagged true |
| Labels.SuggestedDistinct | src/pages/Account.js:229-233 | with distinct object keys the suggested list never repeats a label |
| Labels.SuggestedInKeyOrder | src/pages/Account.js:229-233 | the suggested list is a subsequence of the keys, so it comes in insertion order |
| Labels.AnySelectedIffSuggestions | src/pages/Account.js:202-206 | the Next guard `some(v => v)` holds iff the suggested list is non-empty |
| Labels.SuggestedRows | src/pages/Account.js:90-102 | one row per suggested label in input order; ticked (success) iff the label is detected, error colour otherwise |
| Labels.DetectedRows | src/pages/Account.js:106-118 | one row per detected label in input order; ticked iff the label is suggested, plain colour otherwise |
| Labels.BothColumnsMatchIntersection | src/pages/Account.js:78-128 | both columns tick exactly the labels that are both suggested and detected |
| Progress.NextProgress | src/pages/Account.js:266-274 | for c in [0,100] and r in [1,20] the result lies in [c,100]; below 95 it is greater than c and at most 99; from 95 on it is exactly 100 |
| Progress.Ticks | src/pages/Account.js:265-275 | the value after successive interval firings: at most 100 after any firing, and at most 100 throughout from a value at most 100 |
| Progress.TicksBoundedAndAdvancing | src/pages/Account.js:265-275 | any run of ticks stays in [c,100] and has either reached 100 or gained at least one per tick |
| Progress.HundredIsFixed | src/pages/Account.js:270-272 | 100 is a fixed point of any run of ticks |
| Progress.TicksReachHundred | src/pages/Account.js:266-274 | more than 100 ticks always end at exactly 100 |
| Progress.StatusText | src/pages/Account.js:314-323 | uploading wins; while processing the text bands are [0,30), [30,60), [60,90) and 90 or more; otherwise the idle prompt |
| Progress.StatusTextNeverGoesBack | src/pages/Account.js:314-323 | while processing, a tick never moves the status text to an earlier band |
| Playback.PlaybackPath | src/pages/Account.js:130-133 | a name starting with '/' is played as is; any other name is placed under `http://localhost:5000/processed/` |
| Playback.DownloadUrl | src/pages/Account.js:295 | the download URL is always the processed base followed by the name |
| Playback.DownloadTarget | src/pages/Account.js:291-295 | a download is attempted iff the filename is truthy, and then from the download URL |
| Playback.PlaybackAgreesWithDownload | src/pages/Account.js:131-133 | for names not starting with '/' the player and the download use the same URL |
| Playback.ResolvedPathIsNotAbsolute | src/pages/Account.js:131-133 | a resolved path does not start with '/', so resolving it again adds the base a second time |
| AccountScreen.NextEnabled | src/pages/Account.js:369 | the Next button is enabled iff the suggested list is not empty |
| AccountScreen.ProcessButtonShown | src/pages/Account.js:409 | the Process button is shown only with a chosen file while neither uploading nor processing |
| AccountScreen.Busy | src/pages/Account.js:401 | the upload controls are disabled while uploading or processing; armed timers imply busy |
| AccountScreen.AfterUploadReply | src/pages/Account.js:244-260 | a reply leaves step, progress, dialog, labels and chosen file alone; a success keeps `uploading`, sets processing, stores the reply's filename and, when it carries them, its detected labels, and arms the timers as the `[processing]` effect does; a failure clears both flags; what this means for the screen is in AccountScreen.UploadReplyOutcome |
| AccountScreen.EffectTimers | src/pages/Account.js:263-289 | the timers change only when `processing` changes; they are then armed iff processing and progress below 100 |
| AccountScreen.ProgressBarValue | src/pages/Account.js:424-430 | the bar shows the progress while processing and 0 otherwise, always within [0,100] |
| AccountScreen.PlayerSource | src/pages/Account.js:439-444 | the player is shown iff the filename is truthy, with the playback path of that filename |
| AccountScreen.ComparisonColumns | src/pages/Account.js:468-475 | the dialog's columns list the suggested and the detected labels in order; both tick the same labels, exactly those flagged true and detected |
| AccountScreen.UploadReplyOutcome | src/pages/Account.js:244-260 | a success leaves the screen busy and arms the timers when it was idle below 100; a failure clears both flags and the timers and keeps the filename, the detected labels and the chosen file |
| AccountScreen.Account.constructor | src/pages/Account.js:162-172 | the initial state: step 0, both flags false, progress 0, no labels, no file, no result |
| AccountScreen.Account.ReceiveLatestVideo | src/pages/Account.js:178-193 | a successful reply sets the filename and, if present, the detected labels; any other reply changes nothing; the step is untouched |
| AccountScreen.Account.ToggleLabel | src/pages/Account.js:195-200 | only `selectedLabels` changes: that label's flag flips, every other flag is unchanged |
| AccountScreen.Account.Next | src/pages/Account.js:202-206 | step 0 becomes 1 iff some flag is true; otherwise nothing changes |
| AccountScreen.Account.Back | src/pages/Account.js:208-211 | step 0 and no chosen file; labels and result fields unchanged |
| AccountScreen.Account.SelectFile | src/pages/Account.js:213-218 | the first chosen file replaces the previous one; an empty choice changes nothing |
| AccountScreen.Account.StartUpload | src/pages/Account.js:220-233 | without a file nothing is sent or changed; otherwise `uploading` becomes true, progress 0, and the request carries the file and the labels flagged true in key order |
| AccountScreen.Account.ReceiveUploadReply | src/pages/Account.js:244-260 | success stores the filename, replaces the detected labels only when present and sets processing; any error clears uploading and processing and nothing else |
| AccountScreen.Account.Tick | src/pages/Account.js:266-275 | an armed interval applies the progress updater and changes nothing else; progress never decreases |
| AccountScreen.Account.FinalTimeout | src/pages/Account.js:277-287 | an armed final timer sets progress 100, ends processing, opens the dialog and clears both timers |
| AccountScreen.Account.OpenComparison | src/pages/Account.js:457-462 | the "View Label Comparison" button opens the dialog and changes nothing else |
| AccountScreen.Account.CloseComparison | src/pages/Account.js:468-470 | closing the dialog changes nothing else |
| AccountScreen.Account.Unmount | src/pages/Account.js:284-287 | the effect cleanup clears both timers and changes nothing else |
| Naming.OutputName | app.py:150 | the output name is the decimal number followed by `_out.mp4` |
| Naming.ResultsFileName | app.py:162 | the results name is the decimal number followed by `_out_results.json` |
| Naming.IsOutputVideo | app.py:44 | a listed name ends in `_out.mp4` and does not start with '.' |
| Naming.ResultsNameOf | app.py:53 | the derived results name ends in `_results.json`; its agreement with the writer is Naming.ResultsNameMatchesWriter |
| Naming.IntToString | app.py:150 | Python's `str(n)` inside the f-string: non-empty, a leading '-' exactly for negative n, a digit first otherwise |
| Naming.IntToStringInjective | app.py:150 | distinct numbers print as distinct decimal strings |
| Naming.OutputNameIsListed | app.py:44 | every `f"{n}_out.mp4"` name matches the glob `*_out.mp4` |
| Naming.ResultsNameMatchesWriter | app.py:53 | the results name the reader derives from `f"{n}_out.mp4"` equals the `f"{n}_out_results.json"` the writer uses (line 162) |
| Naming.OutputNameInjective | app.py:150 | distinct video numbers give distinct output names |
| Http.VideoUrl | app.py:75 | `video_url` is `/processed/` followed by the filename |
| ProcessedFolder.Videos | app.py:44 | the glob returns exactly the folder's files whose names match `*_out.mp4` |
| ProcessedFolder.StoredLabels | app.py:52-62 | the labels of a video's results file, `[]` when that file is missing or unreadable; per number in ProcessedFolder.StoredLabelsOfNumber |
| ProcessedFolder.InfoOf | app.py:103-107 | the per-video dict: the filename, `/processed/` followed by that filename, and the video's stored labels |
| ProcessedFolder.StoredLabelsOfNumber | app.py:52-63 | the labels read for video n are those of `f"{n}_out_results.json"`, and `[]` when that file is missing or unreadable |
| ProcessedFolder.PickNewest | app.py:49 | `max` by mtime returns a candidate whose mtime is at least every other candidate's |
| ProcessedFolder.LatestProcessedVideo | app.py:42-63 | none iff there is no output video; otherwise a video of maximal mtime with its stored labels |
| ProcessedFolder.GetLatestVideo | app.py:65-77 | 404 with an error when there is no video; otherwise success with a newest video, `video_url` = `/processed/` + filename, and its labels |
| ProcessedFolder.NewestFirst | app.py:82-87 | every output video exactly once, sorted newest mtime first |
| ProcessedFolder.GetAllVideos | app.py:79-112 | always 200; with no videos `success: False` and an empty list; otherwise one entry per video, newest first, with its URL and labels |
| Server.NextVideoNumber | app.py:31-36 | 1 without a counter file; stored count + 1 with a missing count read as 0; an unreadable file raises |
| Server.Saved | app.py:38-40 | the `{'count': n}` that `save_video_number(n)` writes, which the next request reads back as number n + 1 |
| Server.NumbersGiven | app.py:137-140 | successive accepted requests take one number each while the counter is readable |
| Server.NumbersGivenIncrease | app.py:137-140 | the numbers successive requests take are consecutive from the next number, so strictly increasing and distinct |
| Server.NamesGivenDistinct | app.py:139-150 | output names of successive requests never collide |
| Server.CheckRequest | app.py:121-135 | 400 "No video file provided" without a `video` part, 400 "No selected file" for an empty filename; otherwise the parsed labels, or `[]` |
| Server.LabelsNeverCauseRejection | app.py:128-135 | acceptance depends only on the video part; a missing or unparsable `suggested_labels` never causes a 400 |
| Server.Server.SaveVideoNumber | app.py:38-40 | the counter file becomes `{'count': n}` and the folder is unchanged |
| Server.Server.ProcessVideo | app.py:119-182 | a rejected request changes nothing; an accepted one saves the next number before processing, so even the 500 that follows leaves the counter advanced; an unreadable counter gives 500 and leaves it as it was |
| Interop.DownloadUrlIsServerVideoUrl | src/pages/Account.js:295 | the client's download URL is the server's `video_url` under its origin |
| Interop.PlaybackOfServerName | src/pages/Account.js:131-133 | a server-issued output name never starts with '/', so the player reaches the server's `video_url` route |

## Left out

- MUI rendering, the Stepper and Dialog markup and the hidden file input are left out. Only the visibility tests are modelled, as predicates on `AccountScreen.AccountState`.
- The I/O calls are left out: `fetch`, `FormData`, `response.json()`, the Blob and object-URL download and the anchor element. Network outcomes are `AccountScreen.Reply` values handed to the reply methods. The console logging is left out too.
- `setInterval`/`setTimeout` wall-clock scheduling and React's render and effect timing are left out. Ticks and the final timer are events that fire only while armed, and the effect runs where `processing` changes.
- `Math.random` is left out. The increment is a parameter in [1, 20].
- A state update after unmount is left out. React drops it, and the code has no guard of its own.
- `allLabels` and `resultVideo` are left out: the first is computed but unused, the second is never set. `getStatusText` is modelled although the render never calls it.
- Keys are assumed to be catalog labels only. Two JavaScript behaviours are therefore left out, because no catalog label triggers them. The first is that array-index-like keys are ordered first. The second is that `!prev[label]` reads inherited `Object.prototype` members such as `constructor`, `toString` or `__proto__`: a first toggle of one of those stores false, and the model stores true.
- `handleDownload`'s Blob handling is left out. Only its guard and URL are modelled (`Playback.DownloadTarget`).
- The processing success path of `process_video` is left out. As written, `process_video_from_bytes` is called with a `suggested_labels` keyword its signature lacks, so every accepted request whose counter file reads raises there and answers 500. In that path `processor.get_detected_labels` does not exist, and writing the results file is never reached.
- Server.Server.ProcessVideo: the exception text is a parameter, not Python's message.
- `download_video` is left out. It refers to an undefined `processed_videos`, so every call ends in a server error.
- Flask routing, CORS, `send_from_directory`/`send_file` and logging are left out.
- Real file and JSON I/O is left out. The counter and the folder are values, a JSON result file is reduced to its `detected_labels` member, and mtimes are integers. A `suggested_labels` that parses to something other than a list of strings is not represented.
- ProcessedFolder.StoredLabels: a `detected_labels` member that is JSON `null` or not a list of strings is returned unchanged by `.get`, not as `[]`; the model represents only a missing member or a list of strings.
- Server.NumbersGiven, Server.NumbersGivenIncrease, Server.NamesGivenDistinct, Server.Server.ProcessVideo: these hold only when requests are handled one at a time. Flask's development server handles each request on its own thread, and the counter is read and then written without a lock (lines 139-140), so two overlapping requests can both take the same number and the same output name. Concurrency is not modelled.
- `video_processor.py` (OpenCV and YOLO inference), `SignMap.js` (floating-point coordinate scaling) and the static pages are not part of this model.
- The order among files with equal mtimes is not modelled, in `ProcessedFolder.LatestProcessedVideo` or `ProcessedFolder.NewestFirst`. It follows the unspecified glob order and is left open.
