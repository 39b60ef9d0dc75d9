# Taller-colcis-2025 media pipeline, modelled in Dafny

This project models the batch media scripts of the workshop repository.

- **Renamer** (`compresores/renombrarRegex.py`) renames camera files `IMG_<n>.<ext>` and `MVI_<n>.<ext>` to `<YYYYMMDD>_<n>.<ext>`. The date comes from the EXIF DateTimeOriginal tag, from exiftool's CreateDate, or else from the modification time.
- **Three optimisers** (`compresores/optimizer.py`, `compresores/optimizer-2-davinci.py` and `compresores/optimizer-3-hilos.py`) mirror the walked tree under `<root>-optimizados`. In that mirror they:
  - compress images to `{stem}_opt.jpeg`;
  - compress videos to `{stem}_opt.mp4`;
  - in the second and third scripts, also convert that file into a DaVinci Resolve friendly `{stem}_opt_R.mp4`.
- **In-place converter** (`to-resolve.py`) writes `{stem}_R.mp4` beside every video.

Every script skips an artifact whose path already exists. None of them stops on a per-file failure.

## How the model is built

**Filesystem.** The filesystem is the set of paths that exist. A path is a sequence of components. The walked root and the output root are each a single first component.

**The directory walk** (`os.walk`) is an input: a sequence of directories, each with the names of the files it holds.

**External calls.** PIL saves, ffmpeg runs and `os.rename` are oracles: the outcome of each call is an input, indexed by the number of log events before that call. A failed save or ffmpeg run may leave its output file behind, because no script removes it. The date lookup's observations (EXIF items, exiftool's output, the modification time) are an input per file path.

**The log.** Each run keeps a log of outcome tags: directory made, artifact skipped, or call with its outcome.

**Loops as methods.**
- Each loop of the optimisers, of the converter and of the renamer's walk is a method whose loop invariants prove it equal to a specification function. That function is a fold over the walk, names or tasks.
- The EXIF item search is the method `CaptureDate.FindOriginal`, proved equal to the recursive function `CaptureDate.FirstOriginal` that the date lookup uses.
- The optimisers' loop bodies are one method per level: walk, directory, file.
- Each `continue` in the source becomes a `return` in the per-file method.
- The methods pass the filesystem and the log as values. They keep no shared object.

**Properties** are lemmas over those functions:
- what one file does;
- that every supported file is reached whatever the calls do;
- which calls may appear in the log, and in what order;
- that the mirrors exist after a run;
- that a second run after a fully successful one changes nothing in the optimisers;
- the parse/format round trip of date stamps;
- that the name pattern is described exactly, in both directions.

Modules:
- `Base`: Option, ASCII `str.lower()`, digits and zero-padded numbers.
- `Paths`: `os.path.splitext`, classification by extension, output root, `normpath`, mirrors, counts over a walk.
- `Effects`: the filesystem and log state, calls, oracles, skip and exec steps.
- `Media`: configuration, defaults, ffmpeg parameter sets, artifact names.
- `Optimizer`, `OptimizerDavinci`, `OptimizerThreads`: the three optimisers.
- `ToResolve`: the in-place converter.
- `CaptureDate`: `obtener_fecha_captura`.
- `Renamer`: `renombrarArchivos`.

### Behaviour of the scripts worth knowing

- **Tasks.** `optimizer-3-hilos.py` makes a task for every walked file, unsupported ones included; such a task returns without effect (`PlanShape`).
- **Mirror directories.**
  - The optimisers make the mirror of every walked directory, whether or not it holds media.
  - The threaded script makes all of them in the main thread, before any task runs (`MirrorsBeforeTasks`).
  - The output suffix is always `-optimizados`.
- **No summary counts.** The scripts print one line per event and the elapsed time; they keep no counts of processed, skipped or failed files.
- **Renames replace.** The renamer does not check whether the new name exists before `os.rename`, which on POSIX replaces an existing target.

## Model

| member | source | states |
|---|---|---|
| Base.LowerConcat | compresores/renombrarRegex.py:10 | lower-casing distributes over concatenation |
| Base.NumPad | compresores/renombrarRegex.py:52 | a number written zero-padded to width w reads back as that number |
| Base.PadNum | compresores/renombrarRegex.py:19 | any digit string is the zero-padded form of its own value at its own width |
| Paths.LastDot | compresores/optimizer-2-davinci.py:53 | the index found holds a dot and no later character is a dot; none found means no dot at all |
| Paths.SplitExt | compresores/optimizer-2-davinci.py:53 | stem and extension concatenate to the name; a non-empty extension starts with its only dot and follows a stem that is not all dots; an empty one means every dot has only dots before it |
| Paths.SplitExtUnique | compresores/optimizer-2-davinci.py:53 | any split meeting those three conditions is the one `splitext` gives, so they describe it completely |
| Paths.SplitExtExamples | compresores/optimizer-2-davinci.py:53 | `.mp4` and `..mp4` have no extension, `a.tar.gz` splits at the last dot, `clip.` has extension `.`, `README` none |
| Paths.Classify | compresores/optimizer-2-davinci.py:43-54 | image exactly when the lower-cased extension is `.jpg` or `.png`, video exactly when it is one of the seven video extensions |
| Paths.ClassifyBySuffix | compresores/optimizer-2-davinci.py:43-54 | a name has a given listed extension exactly when it ends with it in any letter case and something other than dots precedes it |
| Paths.RStripSep | compresores/optimizer-2-davinci.py:40 | the result is a prefix of the root, everything removed is a separator, and the result does not end in one |
| Paths.OutputRootIgnoresTrailingSeps | compresores/optimizer-2-davinci.py:40 | any number of trailing separators on the root gives the same output root |
| Paths.OutputRootIsNotRoot | compresores/optimizer-2-davinci.py:40 | the output root is never the walked root |
| Paths.Norm | compresores/optimizer-2-davinci.py:59 | a normalised path has no `.` component and is no longer than the input |
| Paths.NormConcat | compresores/optimizer-2-davinci.py:59 | normalisation distributes over joining |
| Paths.NormOfNormal | compresores/optimizer-2-davinci.py:59 | a path without `.` components is already normal |
| Paths.NormJoin | compresores/optimizer.py:39-49 | joining a name other than `.` to a directory and normalising equals normalising the directory and then joining; the result is normal |
| Paths.MirrorDirShape | compresores/optimizer-2-davinci.py:46-48 | the mirror of the walked root is the output root itself; any other directory's mirror is the output root followed by its relative path |
| Media.ArtifactNamesDistinct | compresores/optimizer-2-davinci.py:58-96 | `_opt.jpeg`, `_opt.mp4` and `_opt_R.mp4` names never coincide for any two stems, and each artifact name determines its stem |
| Media.DefaultStages | compresores/optimizer-2-davinci.py:32-33 | with the default arguments images are saved at quality 80 and stage 1 is libx265 at crf 28, preset medium, AAC audio; no configuration gives the Resolve parameters |
| Media.ArtifactNamesAreNotDot | compresores/optimizer-2-davinci.py:58-97 | no artifact name is `.` |
| Optimizer.OptimizeFiles | compresores/optimizer.py:18-74 | the method's final paths and log are exactly the run over the walk: output root made, then each directory mirrored and its files processed in order |
| Optimizer.OptimizeDir | compresores/optimizer.py:31-74 | the inner loop's result is the fold of the per-file step over the directory's names, at the normalised mirror |
| Optimizer.OptimizeFile | compresores/optimizer.py:32-74 | one loop body equals the per-file step, image save to the plain join included |
| Optimizer.SavePathIsCheckedPath | compresores/optimizer.py:39-51 | the plain join it saves to and the normalised path it checks name the same file |
| Optimizer.ImageFile | compresores/optimizer.py:37-54 | an image appends one event: a skip with nothing written when `{stem}_opt.jpeg` exists, else one save to it from the source at the configured quality; no other path can appear |
| Optimizer.VideoFile | compresores/optimizer.py:57-74 | a video appends one event: a skip when `{stem}_opt.mp4` exists, else one ffmpeg run with the configured codec, crf and preset; there is no second stage |
| Optimizer.UnsupportedFileIsIgnored | compresores/optimizer.py:33-57 | an unsupported extension leaves paths and log unchanged |
| Optimizer.FileStepSingleStage | compresores/optimizer.py:37-74 | one file keeps the log single-stage |
| Optimizer.RunNamesSingleStage | compresores/optimizer.py:31-74 | one directory's files keep the log single-stage |
| Optimizer.RunDirsSingleStage | compresores/optimizer.py:26-74 | the whole walk keeps the log single-stage |
| Optimizer.RunIsSingleStage | compresores/optimizer.py:18-74 | whatever the calls do, every call of a run uses the configuration, and none is a Resolve conversion or produces an `_R` artifact |
| Optimizer.FileAttempts | compresores/optimizer.py:33-74 | one file adds one first-stage event when supported, none otherwise |
| Optimizer.RunNamesAttempts | compresores/optimizer.py:31-74 | a directory adds one first-stage event per supported name |
| Optimizer.RunDirsAttempts | compresores/optimizer.py:26-74 | a walk adds one first-stage event per supported file |
| Optimizer.EveryFileIsReached | compresores/optimizer.py:18-74 | whatever the calls do, a run logs exactly one event per image and video of the walk |
| Optimizer.RunNamesGrows | compresores/optimizer.py:31-74 | processing files never removes a path |
| Optimizer.RunDirsMirrors | compresores/optimizer.py:26-29 | after the walk, every walked directory's mirror and its ancestors exist |
| Optimizer.MirrorsExist | compresores/optimizer.py:18-29 | after a run the output root and every walked directory's mirror exist, media or not |
| Optimizer.FileCovers | compresores/optimizer.py:37-74 | when every call succeeds, a file's artifact exists afterwards |
| Optimizer.RunNamesCovers | compresores/optimizer.py:31-74 | when every call succeeds, all artifacts of a directory exist afterwards |
| Optimizer.RunDirsCovers | compresores/optimizer.py:26-74 | when every call succeeds, all mirrors and artifacts of the walk exist afterwards |
| Optimizer.RunNamesQuiet | compresores/optimizer.py:41-63 | when a directory's artifacts exist, processing it makes no call and changes no path |
| Optimizer.RunDirsQuiet | compresores/optimizer.py:26-63 | when the walk's mirrors and artifacts exist, the walk makes no call and changes no path |
| Optimizer.RerunIsQuiet | compresores/optimizer.py:18-74 | after a fully successful run, a second run over the same walk makes no save and no ffmpeg call and changes no path, whatever its calls would do |
| OptimizerDavinci.OptimizeFiles | compresores/optimizer-2-davinci.py:40-104 | the method's final paths and log are exactly the run over the walk |
| OptimizerDavinci.OptimizeDir | compresores/optimizer-2-davinci.py:51-104 | the inner loop's result is the fold of the per-file step over the names |
| OptimizerDavinci.OptimizeFile | compresores/optimizer-2-davinci.py:52-104 | one loop body, with its `continue`s, equals the two-stage per-file step |
| OptimizerDavinci.FileStepAtGrows | compresores/optimizer-2-davinci.py:57-104 | a file only adds paths and only appends to the log |
| OptimizerDavinci.FileStepGrows | compresores/optimizer-2-davinci.py:57-104 | the same for a walked file |
| OptimizerDavinci.UnsupportedFileIsIgnored | compresores/optimizer-2-davinci.py:53-72 | an unsupported extension leaves paths and log unchanged |
| OptimizerDavinci.ImageFile | compresores/optimizer-2-davinci.py:57-69 | an image appends one event: a skip with nothing written when `{stem}_opt.jpeg` exists, else one save to it at the configured quality; only that path can appear |
| OptimizerDavinci.StageOneFailureStopsFile | compresores/optimizer-2-davinci.py:76-91 | a failing stage-1 call logs exactly that one event and attempts no stage 2, whether or not it left a file |
| OptimizerDavinci.StageTwoAfterSkippedStageOne | compresores/optimizer-2-davinci.py:92-104 | with `{stem}_opt.mp4` present and `{stem}_opt_R.mp4` absent, stage 1 is skipped and stage 2 converts the existing stage-1 file |
| OptimizerDavinci.PartialStageOneIsTrusted | compresores/optimizer-2-davinci.py:76-104 | a stage-1 failure that left a partial file makes the next pass skip stage 1 and convert that partial file |
| OptimizerDavinci.SameStemImagesShareArtifact | compresores/optimizer-2-davinci.py:53-62 | two images with the same stem target one artifact, and once it exists the second is skipped |
| OptimizerDavinci.FileStepShape | compresores/optimizer-2-davinci.py:57-104 | one file keeps the log well-shaped: calls use the configuration, and stage 2 follows its ready stage 1 |
| OptimizerDavinci.RunNamesShape | compresores/optimizer-2-davinci.py:51-104 | a directory keeps the log well-shaped |
| OptimizerDavinci.RunDirsShape | compresores/optimizer-2-davinci.py:46-104 | a walk keeps the log well-shaped |
| OptimizerDavinci.RunLogShape | compresores/optimizer-2-davinci.py:40-104 | whatever the calls do, every call uses the configuration and every stage-2 call directly follows a skipped or successful stage 1 of its own input, never the source |
| OptimizerDavinci.FileAttempts | compresores/optimizer-2-davinci.py:53-104 | one file adds one first-stage event when supported, none otherwise |
| OptimizerDavinci.RunNamesAttempts | compresores/optimizer-2-davinci.py:51-104 | a directory adds one first-stage event per supported name |
| OptimizerDavinci.RunDirsAttempts | compresores/optimizer-2-davinci.py:46-104 | a walk adds one first-stage event per supported file |
| OptimizerDavinci.EveryFileIsReached | compresores/optimizer-2-davinci.py:40-104 | whatever the calls do, a run logs exactly one first-stage event per image and video |
| OptimizerDavinci.RunNamesGrows | compresores/optimizer-2-davinci.py:51-104 | processing files never removes a path |
| OptimizerDavinci.RunDirsMirrors | compresores/optimizer-2-davinci.py:46-49 | after the walk, every walked directory's mirror and its ancestors exist |
| OptimizerDavinci.MirrorsExist | compresores/optimizer-2-davinci.py:40-49 | after a run the output root and every walked directory's mirror exist |
| OptimizerDavinci.FileCovers | compresores/optimizer-2-davinci.py:57-104 | when every call succeeds, all of a file's artifacts exist afterwards |
| OptimizerDavinci.RunNamesCovers | compresores/optimizer-2-davinci.py:51-104 | when every call succeeds, a directory's artifacts exist afterwards |
| OptimizerDavinci.RunDirsCovers | compresores/optimizer-2-davinci.py:46-104 | when every call succeeds, every mirror and artifact of the walk exists afterwards |
| OptimizerDavinci.FileQuiet | compresores/optimizer-2-davinci.py:60-98 | when a file's artifacts exist, it makes no call and changes no path |
| OptimizerDavinci.RunNamesQuiet | compresores/optimizer-2-davinci.py:51-98 | when a directory's artifacts exist, it makes no call and changes no path |
| OptimizerDavinci.RunDirsQuiet | compresores/optimizer-2-davinci.py:46-98 | when the walk's footprint exists, the walk makes no call and changes no path |
| OptimizerDavinci.RerunIsQuiet | compresores/optimizer-2-davinci.py:40-104 | after a fully successful run, a second run over the same walk makes no call and changes no path, whatever its calls would do |
| OptimizerThreads.ProcessTask | compresores/optimizer-3-hilos.py:35-83 | one `procesar_archivo` call equals the task step, whose single `try` ends the task at a stage-1 failure |
| OptimizerThreads.WorkerCount | compresores/optimizer-3-hilos.py:110 | a count exists exactly when the processor count is known; it is 1 for fewer than two processors and otherwise the floor of half the count (at least half of one less, at most half) |
| OptimizerThreads.BuildDirTasks | compresores/optimizer-3-hilos.py:100-108 | the inner loop lists the task of each name of the directory, in order |
| OptimizerThreads.BuildTasks | compresores/optimizer-3-hilos.py:91-108 | the list-building loop makes the output root and every mirror, and returns the task list in walk order |
| OptimizerThreads.RunTasks | compresores/optimizer-3-hilos.py:113-114 | running the task list is the fold of the task step over it, in list order |
| OptimizerThreads.OptimizeParallel | compresores/optimizer-3-hilos.py:86-114 | the method's final paths and log are the whole script's: mirrors and list first, then every task when a worker count exists |
| OptimizerThreads.DirTasksShape | compresores/optimizer-3-hilos.py:100-108 | a directory lists one task per name, the k-th for the k-th name |
| OptimizerThreads.PlanShape | compresores/optimizer-3-hilos.py:94-108 | the list has one task per walked file, contains the task of every walked file, and every task carries the run's configuration |
| OptimizerThreads.MakeMirrorsFs | compresores/optimizer-3-hilos.py:94-98 | making the mirrors adds exactly the mirror directories and their ancestors |
| OptimizerThreads.MakeMirrorsLog | compresores/optimizer-3-hilos.py:94-98 | making the mirrors appends one directory event per walked directory and no call |
| OptimizerThreads.MakeMirrorsEffect | compresores/optimizer-3-hilos.py:94-98 | both of the above together |
| OptimizerThreads.TasksRunGrows | compresores/optimizer-3-hilos.py:113-114 | running tasks only adds paths and only appends to the log |
| OptimizerThreads.MirrorsBeforeTasks | compresores/optimizer-3-hilos.py:91-114 | before any task runs, the log holds one directory event per directory and no call, exactly the mirrors were added, and the run's log starts with that prefix |
| OptimizerThreads.TaskIsFileStepAt | compresores/optimizer-3-hilos.py:35-83 | a task equals the sequential two-stage file step at the resolved mirror directory |
| OptimizerThreads.TaskIsFileStep | compresores/optimizer-3-hilos.py:35-83 | the task of a walked file is the two-stage script's step for that file, so every per-file property of that script holds for tasks |
| OptimizerThreads.StageOneFailureEndsTask | compresores/optimizer-3-hilos.py:58-83 | a failing stage-1 call logs exactly that event and attempts no stage 2 |
| OptimizerThreads.TasksRunConcat | compresores/optimizer-3-hilos.py:113-114 | running two lists one after the other is running their concatenation |
| OptimizerThreads.DirTasksRun | compresores/optimizer-3-hilos.py:100-114 | running a directory's tasks is the two-stage script's inner loop over that directory |
| OptimizerThreads.PlanRun | compresores/optimizer-3-hilos.py:94-114 | running the whole list is running each directory's tasks in walk order |
| OptimizerThreads.ByDirsAttempts | compresores/optimizer-3-hilos.py:94-114 | the tasks add one first-stage event per supported file |
| OptimizerThreads.EveryTaskIsReached | compresores/optimizer-3-hilos.py:110-114 | with a worker count, one first-stage event per image and video whatever the calls do; without one, none |
| OptimizerThreads.FootprintSplit | compresores/optimizer-3-hilos.py:94-108 | the two-stage footprint is the output root, the mirrors and the artifacts |
| OptimizerThreads.ByDirsCovers | compresores/optimizer-3-hilos.py:47-80 | when every call succeeds, every artifact of the walk exists after the tasks |
| OptimizerThreads.ByDirsQuiet | compresores/optimizer-3-hilos.py:47-80 | when every artifact exists, the tasks make no call and change no path |
| OptimizerThreads.ParallelRerunIsQuiet | compresores/optimizer-3-hilos.py:86-114 | after a fully successful run with a worker count, a second run with any processor count and any call outcomes makes no call and changes no path |
| ToResolve.ConvertFolder | to-resolve.py:24-47 | the nested loops' final paths and log are exactly the fold of the per-file step over the walk |
| ToResolve.NonVideoIsIgnored | to-resolve.py:35-36 | any non-video leaves paths and log unchanged |
| ToResolve.VideoFile | to-resolve.py:35-47 | a video appends one event about `{stem}_R.mp4` in its own directory: a skip when it exists, else one Resolve conversion from the video; only that path can appear |
| ToResolve.OutputIsLaterInput | to-resolve.py:33-40 | an output is an `.mp4` in the walked tree, so a later walk converts it into `{stem}_R_R.mp4` |
| ToResolve.FileStepLog | to-resolve.py:35-47 | one file keeps every event about a video and its `_R.mp4` beside it, adding one event for a video only |
| ToResolve.RunNamesLog | to-resolve.py:34-47 | a directory keeps that shape and adds one event per video |
| ToResolve.RunDirsLog | to-resolve.py:33-47 | a walk keeps that shape and adds one event per video |
| ToResolve.EveryVideoIsReached | to-resolve.py:24-47 | whatever the conversions do, the log has exactly one event per walked video, each a skip or a Resolve conversion into the video's own directory |
| ToResolve.RunNamesCovers | to-resolve.py:37-47 | when every conversion succeeds, every output of a directory exists afterwards |
| ToResolve.RunDirsCovers | to-resolve.py:33-47 | when every conversion succeeds, every output of the walk exists afterwards |
| ToResolve.RunNamesQuiet | to-resolve.py:40-42 | when a directory's outputs exist, it converts nothing |
| ToResolve.RunDirsQuiet | to-resolve.py:33-42 | when the walk's outputs exist, it converts nothing |
| ToResolve.SameListingRerunIsQuiet | to-resolve.py:24-47 | after a fully successful run, a run over the same listing converts nothing and changes no path |
| CaptureDate.FormatStamp | compresores/renombrarRegex.py:19 | a written stamp has 19 characters |
| CaptureDate.StampSlices | compresores/renombrarRegex.py:19 | a written stamp is the padded fields with `:`, `:`, ` `, `:`, `:` between them |
| CaptureDate.ParseFormat | compresores/renombrarRegex.py:19 | reading a written stamp gives the date back |
| CaptureDate.FormatParse | compresores/renombrarRegex.py:19 | every accepted text is exactly the stamp of the date read from it |
| CaptureDate.ParseStampIff | compresores/renombrarRegex.py:19 | `strptime` accepts a text with a given date exactly when the text is that date's stamp |
| CaptureDate.ParseStampExamples | compresores/renombrarRegex.py:19 | leap days of 2024 and 2000 are valid; 2023-02-29, 1900-02-29, 31 April and hour 24 are not; a stamp with `-` separators is refused |
| CaptureDate.LStripSpec | compresores/renombrarRegex.py:28 | `lstrip` keeps a suffix, drops only whitespace, and leaves no leading whitespace |
| CaptureDate.RStripSpec | compresores/renombrarRegex.py:28 | `rstrip` keeps a prefix, drops only whitespace, and leaves no trailing whitespace |
| CaptureDate.StripSpec | compresores/renombrarRegex.py:28-29 | `strip` keeps a slice with no whitespace at either end, and everything outside it is whitespace |
| CaptureDate.StripBlank | compresores/renombrarRegex.py:28 | stripped output is empty exactly when the output is all whitespace |
| CaptureDate.FirstOriginal | compresores/renombrarRegex.py:14-19 | the index of the first DateTimeOriginal item, or none when no item has that name |
| CaptureDate.FindOriginal | compresores/renombrarRegex.py:15-19 | the EXIF loop returns on exactly the first DateTimeOriginal item, and on none when no item has that name |
| CaptureDate.Lookup | compresores/renombrarRegex.py:7-36 | EXIF is used exactly for image suffixes with a well-formed first DateTimeOriginal; exiftool exactly for video suffixes with well-formed non-blank output; otherwise the modification time; the date is the one read |
| CaptureDate.FallsBackToMtime | compresores/renombrarRegex.py:10-36 | an unreadable image, a missing, non-text or malformed tag, a missing exiftool, blank or malformed output, or another suffix all give the modification time without raising |
| CaptureDate.SourcesAreIndependent | compresores/renombrarRegex.py:10-36 | an image's date depends only on its EXIF and mtime, any other file's only on exiftool's output and mtime |
| CaptureDate.SuffixOfJoinedPath | compresores/renombrarRegex.py:10 | testing the suffix on the joined path equals testing it on the file name |
| CaptureDate.DateDigits | compresores/renombrarRegex.py:52 | eight digits reading as the year, month and day |
| Renamer.DigitRunEnd | compresores/renombrarRegex.py:40 | the digit run from i ends at k: all digits before k and a non-digit or the end at k |
| Renamer.MatchSound | compresores/renombrarRegex.py:40 | every match has the accepted shape with the returned groups |
| Renamer.MatchComplete | compresores/renombrarRegex.py:40 | every name of the accepted shape matches, with exactly those groups |
| Renamer.MatchExamples | compresores/renombrarRegex.py:40 | `IMG_0001.JPG`, `mvi_12.tar.gz`, `IMG_7.mp4` with a final newline match with their groups; `IMG_.jpg`, `IMG_12`, `DSC_0001.jpg` do not |
| Renamer.NewNameParts | compresores/renombrarRegex.py:48-55 | the new name is the date's eight digits, `_`, the digit run as it was, `.`, the extension as it was |
| Renamer.NewNameNeverMatches | compresores/renombrarRegex.py:40-55 | the pattern never accepts a new name |
| Renamer.RenameFiles | compresores/renombrarRegex.py:44-61 | the nested loops' final paths and log are exactly the fold of the per-file step over the walk |
| Renamer.NonMatchingIsUntouched | compresores/renombrarRegex.py:46-47 | a name the pattern refuses is neither looked up nor renamed |
| Renamer.MatchingFile | compresores/renombrarRegex.py:46-61 | a matching file gets one lookup and one rename attempt to its new name in the same directory; success moves the path, failure is logged and changes nothing |
| Renamer.FileStepWellPlaced | compresores/renombrarRegex.py:46-61 | one file keeps every event a same-directory rename of a matching name to a non-matching one |
| Renamer.RunNamesWellPlaced | compresores/renombrarRegex.py:45-61 | a directory keeps that, adding one event per match |
| Renamer.RunDirsWellPlaced | compresores/renombrarRegex.py:44-61 | a walk keeps that, adding one event per match |
| Renamer.EveryMatchIsAttempted | compresores/renombrarRegex.py:44-61 | whatever the renames do, the log has exactly one event per matching walked file and every event stays in its directory with a non-matching target |
| Renamer.NoMatchInNames | compresores/renombrarRegex.py:45-47 | a directory with no matching name is left as it is |
| Renamer.RenamedTreeIsFixed | compresores/renombrarRegex.py:44-47 | a walk in which no name matches renames and looks up nothing |
| Renamer.RenamedNameNeverMatches | compresores/renombrarRegex.py:40-55 | the name a file carries after its rename is refused by the pattern |
| Renamer.FileStepLands | compresores/renombrarRegex.py:46-61 | with renames succeeding, a file's old path is gone and its new one present, and no earlier old path returns nor earlier new one goes |
| Renamer.RunNamesLand | compresores/renombrarRegex.py:45-61 | the same for every matching file of a directory |
| Renamer.RunDirsLand | compresores/renombrarRegex.py:44-61 | the same for every matching file of the walk |
| Renamer.RenamesLand | compresores/renombrarRegex.py:38-61 | after a run in which every rename succeeded, no matching walked file exists under its old path and each exists under its new name in its own directory |
| Renamer.SecondRunIsQuiet | compresores/renombrarRegex.py:38-61 | a second run over the renamed listing, whatever its metadata and renames, renames and looks up nothing and leaves the paths as the first run left them |

## Left out

- **External programs.** PIL, ffmpeg and exiftool are not modelled. Image decoding, EXIF transposition, RGB conversion and encoding internals are all left out. Each call is an oracle whose outcome is an input, and exiftool's output is an input string.
- **Output.** Printed messages, their wording and emoji, and the tkinter folder dialog are left out. So are the `__main__` blocks and the elapsed-time arithmetic in floating point.
- **transcribir.py** is not part of this model.
- **Walk order.** The order of `os.walk` and of `os.listdir` is an input: the walk is given as a sequence.
- **Trees changed by the run.** A real second walk also lists files made by the first run. That matters only for `to-resolve.py`, where `OutputIsLaterInput` states the consequence. The rerun lemmas of the optimisers use the same listing, which a `-optimizados` tree outside the walked root does not change.
- **Root overlap.** The walked root and the output root are opaque single components. An output root nested inside the walked root (e.g. root `/`) is not modelled.
- **`os.makedirs` failures.** A regular file standing where a mirror directory should go is not modelled. That case raises out of the optimisers.
- **Concurrency.** Thread pool scheduling and interleaving are left out. Tasks run one after another in list order. Two tasks writing the same artifact at once, for same-stem images in one directory, are not modelled.
- OptimizerThreads.RunTasks: `executor.map` results are never read, and all failures are caught per task. So the order of tasks does not change which artifacts exist, but the model fixes one order.
- Base.Lower: maps ASCII capitals and the Kelvin sign. Other characters are left as they are. That is enough for the extensions and suffixes compared, though not for Python's full `str.lower()`.
- Renamer.Match: `\d` is modelled as ASCII digits. Python's `re` also accepts other Unicode decimal digits in a str pattern. Case-insensitive letters cover the ASCII cases plus U+0130 and U+0131.
- CaptureDate.ParseStamp: models the strict fixed-width form of `strptime`. Python also accepts single-digit fields and some whitespace.
- CaptureDate.DateDigits: always writes four year digits. On some platforms `strftime("%Y")` writes fewer digits for years before 1000.
- **Modification time.** `os.path.getmtime` failing is left out. So is the conversion of the timestamp to local time: the modification time enters as a date.
- **os.rename** on an existing target, or a target that is a directory, is an oracle decision. A successful rename is modelled as moving the path.
