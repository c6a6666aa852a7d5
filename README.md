# YouTube mashup: the decision logic, in Dafny

The repository builds a "mashup" for a singer in two ways:

- `102317026.py` is a command-line program.
- `app.py` is a Flask web service that e-mails the result.

Both front ends run the same pipeline:

1. Download the singer's first N search results as `.mp3` files into a temporary directory.
2. Keep the first Y seconds of each file (`cut_audio`).
3. Concatenate the clips in file-name order (`merge_audio`).
4. Remove the temporary directory.

This project models the decision layer around that pipeline:

- The request validation of both front ends:
  - `validate_arguments`;
  - the early-return chain of `create_mashup_endpoint`;
  - `validate_email`;
  - Python's `int()` and `str.strip()`.
- How the downloaded files are selected and ordered: filter on `.mp3`, join to the directory, sort in place by code point.
- How cut files are named, trimmed and skipped.
- How the clips are merged.
- Which way each run ends, and whether the temporary directory is removed on that path:
  - `create_mashup` in the web service;
  - `main`, `download_videos` and `cleanup` in the CLI.

The foreign parts are oracles passed in as parameters:

- **The downloader** is a `DownloadRun`: the files it left, each with decodable audio or not, and the message of any exception it raised.
- **Decoding** is the file system's `audio` map. A path without an entry is a file on which `AudioSegment.from_mp3` raises.
- **Exports** fail at the paths in an `unwritable` set.
- **`shutil.rmtree`** fails when `rmtreeFails` holds.
- **A KeyboardInterrupt or unexpected exception in the CLI** is a `Fault` that strikes at the start of a stage.

Audio is a sequence of one-millisecond samples. So `len(segment)` is the length, `segment[:ms]` is a prefix, and `+=` is concatenation.

Modules, one file each, with the central definitions and the lines they model:

- `wrappers.dfy`: `Option`.
- `checks.dfy`: the first failing check of an ordered list (`Checks.FirstFailure`).
- `text.dfy`: `str.strip`, `in`, `str.replace`, code-point order, and insertion sort as a reference function.
- `pyint.dfy`: `int()` on a string (`PyInt.ParseInt`, app.py:231 and 238, 102317026.py:30 and 40). It skips its own white space (`Text.IsIntSpace`): ASCII tab to carriage return and space, and non-ASCII `str.isspace` characters, but not the separators U+001C to U+001F that `str.strip()` removes. The CLI passes its arguments to `int()` unstripped, so the difference shows there.
- `email.dfy`: `validate_email` (`Email.ValidateEmail`, app.py:33-36).
- `audio.dfy`: trimming and concatenation (`Audio.Trim`, app.py:86-91; `Audio.Concat`, app.py:105-109 and 102317026.py:162-168).
- `files.dfy`: the file system class, `os.path.join` (`Files.JoinPath`), the `.mp3` filter (`Files.Mp3Entries`, app.py:72-73 and 102317026.py:98-99) and the in-place sort (`Files.SortInPlace`, app.py:74 and 102317026.py:100).
- `download.dfy`: what `download_videos` does to the disk (`Download.Downloaded`, app.py:39-72 and 102317026.py:63-98).
- `stages.dfy`: `cut_audio` and `merge_audio`, which are the same loops in both front ends (`Stages.CutName`, app.py:93 and 102317026.py:138; `Stages.CutRun`, app.py:79-100 and 102317026.py:113-151; `Stages.MergeAudio`, app.py:103-111 and 102317026.py:154-188).
- `web.dfy`: `app.py` (`Web.CreateMashupEndpoint` and `Web.Decide`, app.py:212-258; `Web.CreateMashupRun`, app.py:114-143).
- `cli.dfy`: `102317026.py` (`Cli.ValidateArguments`, 102317026.py:18-53; `Cli.MainRun` and `Cli.Pipeline`, 102317026.py:202-239).

The file system is a `FileSystem` class whose methods are the primitive operations: `RemoveTree`, `MakeDirs`, `Store` and `Export`. The stages and the two entry points are module-level methods that take the `FileSystem` and change it only through those four. Each of them is proved equal to a specification function on a value view of the disk (`Disk`), for example:

- `Web.CreateMashup` against `Web.CreateMashupRun`;
- `Cli.Run` against `Cli.MainRun`;
- `Stages.CutAudio` against `Stages.CutRun`.

The lemmas about those functions state what the code promises. Some of what the code does on its error paths is easy to miss:

- **The CLI leaves `temp_downloads` behind when a stage fails.**
  - A stage that fails calls `sys.exit(1)`, which raises `SystemExit`.
  - `SystemExit` is not an `Exception`, so `except Exception` does not catch it and `cleanup()` is skipped (`Cli.PipelineLeavesDirOnStageExit`).
  - Only success, a KeyboardInterrupt, and an ordinary exception reach `cleanup()`.
- **The web service carries on after any download exception.** It swallows the quota exception silently, prints every other exception from the downloader, and in both cases goes on to list the directory (`Web.CreateMashupNoVideos`). The CLI carries on only after the quota message and exits on any other (`Cli.MainDownloadErrors`).
- **The web service does not always re-raise the original error.** When `shutil.rmtree` itself raises in the cleanup of `create_mashup`, that error escapes instead of the original one.

## Model

| member | source | states |
|---|---|---|
| Checks.FirstFailure | app.py:221-242 | the first failing check of an ordered list: None iff every check passes, else the error of a failing check all of whose predecessors pass |
| Checks.FirstFailureAt | app.py:221-242 | when check k fails and all before it pass, the reported error is check k's |
| Text.Strip | app.py:216-219 | `str.strip()`: the result is a contiguous slice of the input, everything cut off either side is white space in the sense of `str.isspace`, and the result neither starts nor ends with white space |
| Text.StripNoSpace | app.py:216-219 | stripping a text that neither starts nor ends with white space changes nothing |
| Text.ContainsAt | app.py:68 | `sub in s` holds when `sub` occurs at some index of `s` |
| Text.ContainsWitness | app.py:68 | when `sub in s` holds there is an index where `sub` occurs |
| Text.ReplaceAllAbsent | app.py:93 | `str.replace` leaves a text without the pattern unchanged |
| Text.LexLeReflexive | app.py:74 | code-point order on str is reflexive |
| Text.LexLeTotal | app.py:74 | code-point order on str is total |
| Text.LexLeTransitive | app.py:74 | code-point order on str is transitive |
| Text.LexLeAntisymmetric | app.py:74 | code-point order on str is antisymmetric |
| Text.LexLePrefix | app.py:74 | a common prefix does not change how two names compare, so joining to the same directory keeps their order |
| Text.InsertSorted | app.py:74 | inserting into a sorted list keeps it sorted |
| Text.InsertMultiset | app.py:74 | inserting adds exactly the one element |
| Text.SortSeqSorted | app.py:74 | the reference sort yields a sorted permutation of its input |
| Text.SortedUnique | app.py:74 | two sorted lists with the same elements are equal, so `list.sort()` has exactly one possible result |
| Text.SortedIsSortSeq | app.py:74 | any sorted permutation of a list equals the reference sort of it |
| PyInt.ParseIntNeedsDigit | app.py:230-235 | `int()` raises on a text without digits, such as the empty default of a missing form field |
| PyInt.ParseDigits | 102317026.py:29-30 | `int()` of a well-formed run of digits is its value |
| PyInt.ParseNegatedDigits | 102317026.py:29-30 | `int()` of `-` followed by digits is the negated value |
| PyInt.ShowNatDigits | 102317026.py:29-30 | helper of the `int(str(n)) == n` round trip: `str(n)` of a natural number is a run of digits whose value is n |
| PyInt.ParsePadded | 102317026.py:29-30 | `int()` ignores white space of its own kind on either side of a digit run |
| PyInt.SeparatorNotSkipped | 102317026.py:29-36 | a leading U+001C is not white space to `int()`, so `int("\x1c15")` raises ValueError |
| PyInt.ParseShowRoundTrip | 102317026.py:29-30 | `int(str(n)) == n` for every integer n |
| Email.FindFirst | app.py:35 | the index of the first `@`, or the length when there is none |
| Email.FindLast | app.py:35 | the index of the last `.`, or -1 when there is none |
| Email.MatchesIsFullMatch | app.py:35 | the matcher accepts a text iff it splits as local `@` domain `.` tld with local from `[A-Za-z0-9._%+-]+`, domain from `[A-Za-z0-9.-]+` and tld two or more ASCII letters |
| Email.ValidateEmailIsPattern | app.py:33-36 | `validate_email` holds iff the text, or the text less one trailing newline (what `$` allows), splits that way |
| Email.ValidateStripped | app.py:219-228 | on a stripped address, `validate_email` holds iff the address itself splits that way |
| Email.NoAtRejected | app.py:33-36 | a text without `@` is rejected |
| Email.NotAnEmailRejected | app.py:33-36 | "not-an-email" is rejected |
| Web.DecideReportsFirstFailure | app.py:221-242 | the endpoint answers with the first failing check, in the order singer, e-mail present, e-mail format, count integer, count > 10, duration integer, duration > 20, and accepts with the parsed values only when all pass |
| Web.AcceptedRequestIsValid | app.py:216-253 | a request that starts a worker has a non-empty stripped singer, an address matching the pattern, and fields that parse to more than 10 videos and more than 20 seconds |
| Web.NotAnEmailRejected | app.py:227-228 | a request with a singer and the address "not-an-email" is rejected as an invalid e-mail |
| Web.MissingCountRejected | app.py:217-235 | a valid request without `num_videos` is rejected as not an integer |
| Audio.Trim | app.py:86-91 | a clip is a prefix of its track of length min(len, duration*1000) |
| Audio.TrimShortPassesThrough | app.py:88-89 | a track shorter than the target is used whole |
| Audio.TrimIdempotent | app.py:86-91 | trimming a clip again changes nothing |
| Audio.TotalLengthAppend | app.py:107-109 | the total length of two runs of clips is the sum of their totals |
| Audio.ConcatLength | app.py:103-111 | the merged audio is as long as the clips together |
| Audio.ConcatAppend | app.py:107-109 | merging two runs of clips is merging each and concatenating |
| Audio.PlacedInOrder | app.py:107-109 | clip k sits in the merged audio right after clips 0..k-1 |
| Files.WithoutTreeAbsorbs | app.py:134-135 | after `rmtree(d)` neither `d` nor any directory below it exists; removing `d` again or any tree below it changes nothing, and removing a subtree first leaves the same disk |
| Files.FileSystem.RemoveTree | app.py:134-135 | `rmtree` removes the tree, or raises and changes nothing |
| Files.FileSystem.MakeDirs | app.py:44 | `os.makedirs` adds the directory and nothing else |
| Files.FileSystem.Store | app.py:61-65 | the downloader's file is stored, decodable or not |
| Files.FileSystem.Export | app.py:94 | `export` writes the audio at the path, or raises and changes nothing |
| Files.JoinEndsWith | app.py:72 | `os.path.join(d, f)` keeps the suffix of `f` |
| Files.Mp3EntriesMember | app.py:72-73 | the collected paths are exactly the directory joined to each listed name ending in `.mp3` |
| Files.Mp3EntriesEndWithMp3 | app.py:72-73 | every collected path ends in `.mp3` |
| Files.Mp3EntriesEmpty | 102317026.py:98-107 | nothing is collected iff no listed name ends in `.mp3` |
| Files.SwapDown | app.py:74 | one swap of the in-place insertion sort keeps its inner invariant |
| Files.InsertionDone | app.py:74 | when the inner loop stops, the prefix one longer is sorted |
| Files.SortInPlace | app.py:74 | `list.sort()` in place: the array ends sorted, a permutation of what it held, and equal to the reference sort |
| Files.CollectAudioFiles | app.py:72-74 | the list comprehension and sort return the reference sort of the collected paths |
| Files.CollectedFiles | 102317026.py:98-100 | the downloaded list is sorted, holds exactly the joined `.mp3` names, each ending in `.mp3`, and is empty iff no name ends in `.mp3` |
| Download.ListedNames | app.py:72 | the listing holds exactly the names of the stored files, each once, as `os.listdir` lists a directory |
| Download.Prepared | app.py:41-44 | after recreating the directory it exists, nothing outside it changed, and (on a disk without stale paths below a missing directory) nothing lies below it |
| Download.StoredKeepsPaths | app.py:61-65 | storing downloads removes no path |
| Download.DownloadedHasDir | app.py:41-65 | the directory still exists after the download |
| Download.StoredPaths | app.py:61-65 | storing adds exactly the stored names joined to the directory and removes nothing |
| Download.DownloadedListing | app.py:41-72 | after the download, the paths strictly below the directory are exactly the listed names joined to it, so, for names without `/` such as the downloader's numbered names, the listing is what `os.listdir` reads |
| Download.DownloadedStaysUnder | app.py:41-65 | recreating the directory and running the downloader change no path and no file's audio outside the directory |
| Download.InputsUnder | app.py:72-74 | every path download_videos returns lies inside its directory |
| Download.PrepareWorkspace | app.py:42-44 | the method leaves the disk `Prepared` describes |
| Download.StoreDownloads | app.py:61-65 | the method leaves the disk `Stored` describes |
| Stages.CutNameSuffix | app.py:93 | a name ending in `.mp3` gets a cut name ending in `_cut.mp3`, even though every occurrence is replaced |
| Stages.CutAudio | app.py:79-100 | the loop produces the cut list and disk of the specification `CutRun` |
| Stages.CutRunInOrder | app.py:83-100 | the cut list is the cut names of a subsequence of the inputs in input order, no longer than the inputs; exactly the listed files are written and nothing else changes |
| Stages.CutRunStaysUnder | app.py:79-100 | cut_audio on files inside a directory whose name holds no `.mp3` writes only inside that directory: `replace` cannot reach the directory part |
| Stages.PicksExtend | app.py:95 | appending the last input's cut name extends an in-order pick |
| Stages.CutRunListsDecodable | app.py:94-95 | every listed cut file decodes afterwards |
| Stages.SurvivorsExactly | app.py:84-98 | an input is kept iff it decodes and its cut name is writable, and no more files are kept than given |
| Stages.FreshPrefix | app.py:83 | fresh cut names stay fresh for a prefix of the inputs |
| Stages.FreshLast | app.py:93 | the last input and its cut name are not among the earlier cut names |
| Stages.CutRunClips | app.py:83-100 | with fresh cut names, the cut list is the survivors' cut names, each holding its source trimmed to the duration, and the inputs' audio is untouched |
| Stages.ClipsStep | app.py:84-98 | one loop iteration keeps that correspondence |
| Stages.DecodeAll | app.py:107-108 | decoding the cut list succeeds iff every file decodes, giving their audio in order |
| Stages.MergeAudio | app.py:103-111 | merging succeeds iff every clip decodes and the output is writable; the output then holds their concatenation, otherwise nothing changes |
| Stages.MergedMashup | app.py:79-111 | with fresh cut names, decoding the cut list yields the survivors' trimmed clips in order, each a prefix of min(len, duration*1000) of its source, and the merge is as long as they are together |
| Web.DownloadVideos | app.py:39-76 | download_videos leaves the prepared and filled directory and returns the sorted `.mp3` paths, whatever the downloader raised |
| Web.HandleError | app.py:138-143 | the except branch removes the directory if it exists and re-raises, or raises rmtree's error |
| Web.CreateMashup | app.py:114-143 | the method ends as `CreateMashupRun` says, on the disk it says |
| Web.MashupDirPersists | app.py:116-131 | the task directory exists from the download until the cleanup |
| Web.CreateMashupCleansUp | app.py:133-143 | on every path nothing under `temp_<task_id>` remains, unless rmtree raises, which is then the error raised |
| Web.CreateMashupNoVideos | app.py:61-122 | when rmtree works, "No videos were downloaded successfully" is raised iff no stored name ends in `.mp3`; the outcome never depends on what the downloader raised |
| Web.MashupIgnoresRaised | app.py:61-70 | the completion and the disk left by create_mashup are the same whatever the downloader raised |
| Web.CreateMashupResult | app.py:114-137 | when rmtree works: returns iff a file survives the cut and the output is writable; raises "No audio files..." iff there were inputs but none survived; fails in the merge iff the output is unwritable; on return the output holds the survivors' trimmed clips in order |
| Web.CreateMashupStaysUnder | app.py:114-143 | create_mashup changes nothing outside `temp_<task_id>` except the output file, on every path |
| Cli.NormalizeOutput | 102317026.py:48-51 | the output name ends in `.mp3`, is unchanged iff it already did, and otherwise has exactly `.mp3` appended |
| Cli.NormalizeOutputIdempotent | 102317026.py:48-51 | normalising twice is normalising once |
| Cli.ValidateArgumentsReportsFirstFailure | 102317026.py:18-53 | validate_arguments exits with the first failing check, in the order count, count integer, count > 10, duration integer, duration > 20, and returns the singer, parsed numbers and normalised name only when all pass |
| Cli.DecideArgumentsReportsFirstFailure | 102317026.py:26-53 | the checks after the count, in that order |
| Cli.ValidArguments | 102317026.py:18-53 | the arguments are accepted iff there are exactly five and they parse to more than 10 videos and more than 20 seconds; then the output ends in `.mp3` |
| Cli.ValidArgumentsDecided | 102317026.py:29-53 | the same on the parsed numbers |
| Cli.DownloadVideos | 102317026.py:56-110 | the method leaves the downloaded directory; exits iff the downloader raised a non-quota error or no `.mp3` file is there; warns iff fewer files than asked came; returns the sorted paths |
| Cli.CutStage | 102317026.py:113-151 | cut_audio's loop as `CutRun`, exiting iff nothing was cut |
| Cli.CleanupDisk | 102317026.py:191-199 | cleanup removes exactly the tree when it exists and rmtree works, and otherwise changes nothing; paths outside it are never touched |
| Cli.Cleanup | 102317026.py:191-199 | the method leaves the disk `CleanupDisk` describes and never raises |
| Cli.MainExitStatus | 102317026.py:202-239 | with fresh cut names, main exits with status 0 iff the arguments are valid, nothing interrupts it, the downloader raised nothing but the quota message, some file survives the cut and the output is writable |
| Cli.PipelineFaultEnds | 102317026.py:217-239 | the run ends interrupted (crashed) only on a KeyboardInterrupt (exception) at that stage; one that strikes before the download ends the run at once after cleanup |
| Cli.FaultAt | 102317026.py:232-239 | a KeyboardInterrupt ends the run as interrupted and an ordinary exception as crashed, each at the stage where it struck and only there |
| Cli.NoFaultAnywhere | 102317026.py:217-239 | there is no fault iff none strikes at any of the three stages |
| Cli.Run | 102317026.py:202-239 | main ends and leaves the disk as `MainRun` says |
| Cli.MainArgumentError | 102317026.py:202-209 | main stops with an argument error iff validate_arguments rejects, with that error, before touching the disk |
| Cli.PipelineNeverArgumentError | 102317026.py:217-239 | once past validation, main never reports an argument error |
| Cli.PipelineDirPersists | 102317026.py:63-66 | `temp_downloads` exists from the download through the cut |
| Cli.PipelineCleansUpWhenHandled | 102317026.py:217-239 | after success, a KeyboardInterrupt or an exception, nothing under `temp_downloads` remains when rmtree works |
| Cli.PipelineLeavesDirOnStageExit | 102317026.py:84-188 | every `sys.exit` inside a stage leaves `temp_downloads` in place |
| Cli.MainDownloadErrors | 102317026.py:84-95 | a quota exception changes nothing; any other exception makes main exit in the download stage |
| Cli.PipelineIgnoresRaised | 102317026.py:90-95 | a tolerated exception has no effect on the run |
| Cli.PipelineEndIgnoresCleanupFailure | 102317026.py:191-199 | a failing rmtree in `cleanup` never changes how main ends |
| Cli.PipelineStageExits | 102317026.py:93-188 | without a fault, each stage exits iff its own failure happens: fatal download error or no `.mp3` file, no surviving cut, unwritable output |
| Cli.PipelineEndWithoutFault | 102317026.py:217-228 | without an interrupt or crash, the first failing stage decides the end: the download, then the cut, then the merge, else main finishes |
| Cli.PipelineFinishes | 102317026.py:217-230 | main finishes iff no fault strikes, the download raised nothing fatal, some file survives the cut and the output is writable |
| Cli.MainStaysUnder | 102317026.py:202-239 | main changes nothing outside `temp_downloads` except the output file, on every path; bad arguments change nothing at all |
| Cli.PipelineOutput | 102317026.py:217-230 | when main finishes, the output holds the survivors' trimmed clips in sorted-name order |

## Left out

- The downloader (yt_dlp, `ydl_opts`, the search query): an oracle of stored files and a raised message.
- pydub's decoding and encoding: audio is a sample sequence, and an exported clip decodes to exactly what was exported. Real mp3 encoding is lossy.
- Flask routing, templates, the JSON replies beyond the decision, and the top-level `except Exception` of the endpoint: the validation chain cannot raise.
- `send_email_with_attachment` and `process_mashup_task`: e-mail I/O and a worker thread.
- The time-based task id and the thread start.
- Printing, banners, and the file-size and duration formatting.
- Faults inside a stage: a KeyboardInterrupt or unexpected exception is modelled only at the start of a stage, not halfway through its loop.
- Failures of `os.makedirs`, `os.listdir` and the rmtree in `download_videos`: the workspace is always prepared.
- A partially failing `shutil.rmtree`: a failing rmtree changes nothing.
- `os.listdir`'s order: the listing is the distinct stored names in the order each was first stored (a name stored twice is one file, listed once). The result is sorted, so the order does not matter.
- `int()` on non-ASCII digits and Python's limit on the number of digits: only ASCII digits, sign and underscores are modelled.
- Durations are natural numbers. A negative duration cannot pass validation.
- The CLI download directory is the fixed `temp_downloads`. The lemmas take it as a parameter `d`.
- Stages.CutRunClips, Stages.MergedMashup: assume that no cut name equals an input name or another cut name (`CutNamesFresh`). Otherwise a later export can overwrite an earlier clip or an input.
- Web.CreateMashupResult: assumes fresh cut names, an output outside `temp_<task_id>` that the cleanup would remove, and that rmtree works; when it raises, that error escapes instead (`Web.CreateMashupCleansUp`).
- Web.CreateMashupNoVideos: states when "No videos" is raised only when rmtree works, because a failing rmtree in the cleanup replaces that error with its own.
- Web.CreateMashupStaysUnder: assumes a task id that holds no `.mp3` and does not end in `/` (app.py:246 makes it a decimal number), and downloader names that do not start with `/`.
- Cli.MainStaysUnder: assumes downloader names that do not start with `/`.
- Download.DownloadedListing: assumes no stale path under a missing directory, a directory name that is not empty and does not end in `/`, and stored names that do not start with `/`, as for `temp_<task_id>`, `temp_downloads` and the downloader's numbered names. The listing equals what `os.listdir` returns only for names without `/`, which the downloader's `%(autonumber)s.%(ext)s` template (app.py:53) always produces.
- Cli.PipelineFinishes, Cli.PipelineStageExits, Cli.PipelineEndWithoutFault, Cli.MainExitStatus: assume fresh cut names.
- Cli.PipelineOutput: assumes fresh cut names and an output outside `temp_downloads`.
- Cli.PipelineStageExits: is stated for a run without an interrupt or crash.
- Cli.PipelineCleansUpWhenHandled: assumes that rmtree works, and that no stale path lies under `temp_downloads` when the directory itself is absent.
- Web.CreateMashupCleansUp: states the removal only when rmtree works. When it raises, only the raised error is stated.
