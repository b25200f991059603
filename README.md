# CVCutter core, modelled in Dafny

CVCutter turns the recordings of a concert into one uploaded YouTube video per
performance. It has five stages:

- A person tracker scans the video (the first input, or the concatenation
  of several). A performance is a span in which someone stands in the
  stage centre long enough.
- Each span is cut from that video, and the separately recorded
  microphone audio is aligned by a consensus of offsets and mixed into
  the cut's sound.
- The encoded videos are matched with the printed programme and with the
  performers' answers to a Google Form.
- The upload metadata is generated.
- The videos are uploaded under a daily quota.

This project models that core and proves properties of the model. It covers:

- **Detection.** The detector's state machine over tracker frames, proved
  against a reference definition of the spans it closes
  (`detect_performances.dfy`).
- **Processing.** The synchronisation consensus, the ffmpeg progress parser
  and the whole `process_pair` plan of detector, sync and encode commands
  (`video_processor.dfy`), plus the concat list-file and command helpers
  (`video_utils.dfy`, `video_files.dfy`).
- **Uploading.** The upload quota manager as a class with its state. Also
  the retrying upload of one video and the batch upload loop
  (`youtube_uploader.dfy`).
- **Mapping.** Video-to-programme order, the form-response matching and
  the metadata generator (`video_mapper.dfy`).
- **Forms.** The Google Form response parser as a class: CSV/Sheets rows and
  Forms API responses, question mapping, display-name and privacy reading
  (`google_form_connector.dfy`). The form builder and its history file
  (`create_google_form.dfy`).
- **Settings and programme reading.** The settings manager there as a class
  (`config_manager.dfy`). The Gemini JSON extraction and the programme
  reader (`gemini_utils.dfy`, `pdf_parser.dfy`).

Everything outside the program is a parameter of the model: the clock, the
tracker, ffmpeg's exit codes and output, the audio-offset finder, the Google
APIs, Gemini and `json.loads`. `Wrappers`, `Strings`, `Lists`, `Sorting` and
`JsonValue` are shared helpers. They model Python's `Optional`/exceptions, `str`
methods (`in`, `find`, slicing, `strip`, ASCII `lower`), a stable sort and a JSON
value.

Where the code behaves in a way its names or docstrings do not suggest, the model follows the code:

- The GPU encoder is probed once per segment, inside the encode loop, not
  once per run (`VideoProcessor.EncodeSegments`).
- The consensus cluster is every offset within the tolerance of a chosen
  centre. It is not every offset within the tolerance of each other, so a
  cluster can span twice the tolerance (`VideoProcessor.ClusterSpread`).
- A performance still open when the stream ends is closed at
  `frames_consumed / fps`, one frame past the last frame read
  (`DetectPerformances.FinishExact`).
- A retried upload starts a fresh insert request rather than resuming the
  previous one.
- The privacy answer `非公開…` reads as public
  (see Findings); the parsers use that reading, and the corrected one is
  stated beside it.
- `batch_upload` calls the upload as written, nested retries included
  (see Findings); the corrected retry loop is stated beside it.

## Model

| member | source | states |
|---|---|---|
| DetectPerformances.FramesProcessed | src/cvcutter/detect_performances.py:18-43 | the loop reads at most the frames available, at most `int(max_seconds * fps)` of them when a limit is set (none when it is negative), and all of them without a limit |
| DetectPerformances.CenterIdsNonEmptyIff | src/cvcutter/detect_performances.py:46-55 | a frame counts as occupied exactly when some tracked box has its horizontal centre strictly inside the centre zone |
| DetectPerformances.ComputeCenterIds | src/cvcutter/detect_performances.py:46-53 | the loop over tracked objects collects exactly the track ids whose box centre lies strictly between the two zone bounds |
| DetectPerformances.Occupancy | src/cvcutter/detect_performances.py:45-55 | one occupied/empty flag per frame read |
| DetectPerformances.ToTimes | src/cvcutter/detect_performances.py:57-66 | each detected frame span becomes the pair `(first / fps, stop / fps)`, one pair per span, in order |
| DetectPerformances.ScannedOccupancy | src/cvcutter/detect_performances.py:18-43 | the flags of the frames the capped loop reads: as many as FramesProcessed allows |
| DetectPerformances.StepVariables | src/cvcutter/detect_performances.py:55-70 | one iteration's update of `stage_status`, `performance_start_time` and `performance_segments` agrees with the abstract step of the run machine: a run opens on the first occupied frame and closes, kept only if at least `min_duration_seconds` long, on the first empty one; with `fps` 0 an occupied frame raises `ZeroDivisionError` at the start time and nothing else does |
| DetectPerformances.ScanFrames | src/cvcutter/detect_performances.py:35-92 | the frame loop raises `ZeroDivisionError` exactly when `fps` is 0 and it reads an occupied frame or a hundredth frame (the progress line divides by `fps`); otherwise it stops after FramesProcessed frames, and for a non-zero `fps` the stage is PERFORMING exactly when a run is open, its start time is that run's first frame over fps, and the segments are the closed, long-enough runs in order |
| DetectPerformances.DetectPerformances | src/cvcutter/detect_performances.py:4-105 | the imperative detector returns the specification Detect, for every `fps`: no segments when the video cannot be opened or the tracker cannot be built, the `ZeroDivisionError` a zero `fps` leads to, else the scanned runs |
| DetectPerformances.StepInv | src/cvcutter/detect_performances.py:55-70 | one frame step keeps the run invariant: the kept spans are exactly the closed maximal occupied runs of the frames so far that last long enough, and an open run starts where the current occupied stretch begins |
| DetectPerformances.RunInvariant | src/cvcutter/detect_performances.py:40-90 | the invariant holds after any number of frames |
| DetectPerformances.FinishExact | src/cvcutter/detect_performances.py:94-98 | after the end-of-stream close, a frame span is reported exactly when it is a maximal occupied run (closed by an empty frame or by the end) lasting at least the minimum duration, and the spans are in increasing, disjoint order |
| DetectPerformances.DetectedSpansExact | src/cvcutter/detect_performances.py:18-98 | the same, for the frames the capped loop actually reads |
| DetectPerformances.DetectShape | src/cvcutter/detect_performances.py:10-105 | for a positive `fps` nothing is raised; no segment when the capture is not opened or the tracker fails; otherwise the segments are the converted spans, each with start before end and at least `min_duration_seconds` long, and each ending before the next starts |
| DetectPerformances.ZeroFps | src/cvcutter/detect_performances.py:16-57 | with `fps` 0 no segment is ever found; with `max_seconds_to_process` set nothing is read and the result is `[]`; without it the detector raises exactly when the stream has an occupied frame or at least a hundred frames |
| DetectPerformances.TimesShape | src/cvcutter/detect_performances.py:105 | the spans are already in start order, so the final `sorted(..., key=start)` leaves them as they are |
| DetectPerformances.FramesPastLimitIgnored | src/cvcutter/detect_performances.py:18-40 | for every `fps`, frames past `max_seconds_to_process * fps` do not affect the result, raised or not |
| VideoUtils.Quote | src/cvcutter/video_utils.py:40 | escaping `'` as `'\''` never shortens a path and leaves one without quotes unchanged |
| VideoUtils.UnquoteQuote | src/cvcutter/video_utils.py:40 | the escaping is undone by reading `'\''` back as `'`: no two paths escape to the same text |
| VideoUtils.ListLine | src/cvcutter/video_utils.py:41 | each list-file line is `file '` + the escaped path + `'` and a newline |
| VideoUtils.LinePathListLine | src/cvcutter/video_utils.py:40-41 | the path the concat demuxer reads back from a line is the absolute path written into it |
| VideoUtils.WriteListFile | src/cvcutter/video_utils.py:37-42 | the write loop produces the list file: one line per input path, in order |
| VideoUtils.ListFileLines | src/cvcutter/video_utils.py:38-41 | the list file is the concatenation of one well-formed line per input, and line `k` reads back as the absolute form of input `k` |
| VideoUtils.ConcatCommand | src/cvcutter/video_utils.py:47-54 | the ffmpeg concat command has 11 arguments, starting with the ffmpeg executable, reading the list file and ending with the output path |
| VideoUtils.ConcatenateVideos | src/cvcutter/video_utils.py:23-63 | no input: `False` and nothing done; one input: a copy to the output and `True`; several: the list file is written, the concat command is run and the result is `True` exactly when its exit code is 0 |
| VideoUtils.IndexOf | src/cvcutter/video_processor.py:193-196 | `list.index`: the first position holding the value, or none when it is absent |
| VideoUtils.GpuArgsCodec | src/cvcutter/video_utils.py:65-71 | either answer of the GPU probe starts with `-c:v` and the codec (`h264_nvenc` when `nvidia-smi` succeeds, `libx264` otherwise), and `-c:v` occurs nowhere else |
| VideoFiles.FilterVideos | src/cvcutter/video_mapper.py:42-46 | the kept entries are exactly the regular files whose lower-cased extension is a video extension |
| VideoFiles.SortedVideoFilesSpec | src/cvcutter/video_mapper.py:42-49 | the listing is the video files, ordered by creation time, with files of equal creation time kept in directory order (a stable sort) |
| VideoProcessor.Cluster | src/cvcutter/video_processor.py:26 | the cluster around an offset never has more samples than the input |
| VideoProcessor.ClusterMembers | src/cvcutter/video_processor.py:26 | the cluster around `c` holds exactly the samples within `tolerance` of `c` |
| VideoProcessor.GetConsensusOffset | src/cvcutter/video_processor.py:20-30 | the imperative cluster search returns the specification Consensus |
| VideoProcessor.BestClusterChoice | src/cvcutter/video_processor.py:24-28 | the loop keeps the cluster of some sorted sample that no other sample's cluster outgrows, and the first such one (a later cluster of equal size does not replace it) |
| VideoProcessor.MedianUnreachable | src/cvcutter/video_processor.py:29 | with samples and a non-negative tolerance the best cluster is never empty, so the median fallback is never taken |
| VideoProcessor.ConsensusNoneIff | src/cvcutter/video_processor.py:21 | the consensus is `None` exactly when there are no offsets |
| VideoProcessor.ConsensusIsLargestCluster | src/cvcutter/video_processor.py:20-30 | the consensus is the mean of the cluster around one of the offsets, a cluster no other offset's cluster outgrows, and every member is an input within `tolerance` of its centre |
| VideoProcessor.ClusterSpread | src/cvcutter/video_processor.py:26 | two members of one cluster are at most twice the tolerance apart |
| VideoProcessor.ConsensusBounds | src/cvcutter/video_processor.py:20-30 | the consensus lies between the smallest and the largest offset |
| VideoProcessor.MedianBounds | src/cvcutter/video_processor.py:29 | the median fallback lies between the smallest and the largest offset |
| VideoProcessor.ConsensusExample | src/cvcutter/video_processor.py:20-30 | offsets 5.0, 5.1, 4.9 and an outlier 40.0 give the consensus 5.0: the outlier is ignored |
| VideoProcessor.SearchTime | src/cvcutter/video_processor.py:55-61 | `time_regex.search`: the first position, from the start, where `time=HH:MM:SS.CC` stands, or none when no position has it |
| VideoProcessor.ProgressTimeFormatted | src/cvcutter/video_processor.py:55-64 | a stderr line that carries one `time=HH:MM:SS.CC` report reads as `H*3600 + M*60 + S + CC/100` seconds |
| VideoProcessor.FormattedTime | src/cvcutter/video_processor.py:55-64 | the report format reads back as the time it was written from |
| VideoProcessor.ProgressTimes | src/cvcutter/video_processor.py:60-71 | at most one progress report per stderr line |
| VideoProcessor.RunFfmpegWithProgress | src/cvcutter/video_processor.py:32-77 | a leading `ffmpeg` is replaced by the bundled executable's path and the rest of the command kept; every line with a time report updates the progress, the bar stands at the last report (0 without one), and the result is `True` exactly when the exit code is 0 |
| VideoProcessor.MergedConfigKeys | src/cvcutter/video_processor.py:123-140 | `config.update(overrides)` is shallow: a key is in the result when it is a default or an override, an override wins, and a default survives otherwise |
| VideoProcessor.SyncSamples | src/cvcutter/video_processor.py:158-168 | at most one sample per segment |
| VideoProcessor.EncoderArgs | src/cvcutter/video_processor.py:193 | with `use_gpu` off the arguments are the same as a failed GPU probe gives; with it on, the probe of that segment decides |
| VideoProcessor.Commands | src/cvcutter/video_processor.py:182-219 | one encode command per detected segment |
| VideoProcessor.SyncSegments | src/cvcutter/video_processor.py:154-179 | the sync loop gives the specification Sync: a sample `offset - start` for each successful segment, the microphone dropped when none succeeds, else the consensus as the global offset |
| VideoProcessor.EncodeSegments | src/cvcutter/video_processor.py:182-219 | the encode loop builds, in segment order, each segment's command |
| VideoProcessor.SyncAndEncode | src/cvcutter/video_processor.py:148-219 | no segments: nothing synced or encoded; otherwise sync, then encode with the synced configuration |
| VideoProcessor.ProcessPair | src/cvcutter/video_processor.py:79-219 | `process_pair` equals the specification Plan: the `IndexError` of an empty input list and the `TypeError` or `FileNotFoundError` of an unusable directory, in the source's order; otherwise first input as the name source, joined input when concatenation succeeds, shallow-merged configuration, detection on `config['video_path']`, whose exception (such as the `ZeroDivisionError` of a zero frame rate) is raised unchanged, then sync and encode |
| VideoProcessor.CheckSetup | src/cvcutter/video_processor.py:100-143 | the set-up raises exactly when `SetupSucceeds` fails: no input, a temporary directory that `os.path.join` refuses when inputs are joined, or a directory `os.makedirs` refuses, reporting the first of these in the source's order |
| VideoProcessor.PlanFailsIff | src/cvcutter/video_processor.py:100-147 | `process_pair` fails exactly when there is no input, an `output_dir` or `temp_dir` override is not a non-empty string, or else the detector raises; an empty list gives `IndexError`, a non-string output directory `TypeError`, and so does a non-string temporary directory when several inputs are joined; after a good set-up the detector's exception is the result |
| VideoProcessor.ZeroFpsStopsPair | src/cvcutter/video_processor.py:133-147 | with the detector of `detect_performances` on a stream reporting 0 frames per second, no time limit (the built-in `None`) and an occupied frame or a hundred frames, `process_pair` raises `ZeroDivisionError` |
| VideoProcessor.PlanWithoutSegments | src/cvcutter/video_processor.py:147-182 | after a good set-up there is a plan exactly when the detector returns; nothing is encoded exactly when it finds nothing, and then nothing is synced; otherwise one command per segment |
| VideoProcessor.InputVideoChoice | src/cvcutter/video_processor.py:105-115 | the processed video differs from the first input only when several inputs were joined successfully, and is then `concatenated_input.mp4` in the temporary directory |
| VideoProcessor.DetectorIgnoresFlatKey | src/cvcutter/video_processor.py:123-147 | an override of any key other than `video_path`, `detection_config` and `temp_dir` does not change what the detector receives |
| VideoProcessor.DetectorGetsDefaultDetectionConfig | src/cvcutter/video_processor.py:132-147 | without a `detection_config` override the detector gets the built-in one: minimum duration 30 seconds, no time limit |
| VideoProcessor.SyncSamplesEmptyIff | src/cvcutter/video_processor.py:161-174 | no sample at all exactly when the sync of every segment failed |
| VideoProcessor.SyncSamplesAllSucceed | src/cvcutter/video_processor.py:161-168 | when every sync succeeds, sample `k` is segment `k`'s offset minus its start |
| VideoProcessor.SyncOutcomeCases | src/cvcutter/video_processor.py:154-179 | without a microphone nothing is sampled and the offset is 0; with one, the microphone is dropped exactly when no sample was taken, and otherwise the global offset is the consensus of the samples |
| VideoProcessor.SegmentCommandShape | src/cvcutter/video_processor.py:190-217 | every command starts `ffmpeg -y`, passes `-t` with the segment's duration and ends with the output file |
| VideoProcessor.SegmentAudioMode | src/cvcutter/video_processor.py:198-217 | the command mixes in the microphone track, from `start + offset` and with both configured volumes, exactly when a microphone is active and that start is not negative; otherwise it keeps the video's own audio |
| VideoProcessor.OutputNamesDistinct | src/cvcutter/video_processor.py:185 | different segment numbers give different output files, for a name stem without `/` |
| VideoProcessor.PlanOutputsDistinct | src/cvcutter/video_processor.py:184-185 | the stem of the first input's base name has no `/`, so no two segments of a pair write the same file |
| YoutubeUploader.QuotaConstants | src/cvcutter/youtube_uploader.py:57-70 | `10000 // 1600` allows six uploads a day, and the retried HTTP statuses are exactly 500, 502, 503 and 504 |
| YoutubeUploader.NextQuotaReset | src/cvcutter/youtube_uploader.py:105-120 | the next reset is a Pacific (UTC-8) midnight strictly after now and at most a day after it |
| YoutubeUploader.NextQuotaResetIsFirst | src/cvcutter/youtube_uploader.py:105-120 | no Pacific midnight after now comes before it: it is the next one |
| YoutubeUploader.LoadState | src/cvcutter/youtube_uploader.py:80-95 | a readable state file is used as saved; otherwise no uploads, an empty history and a reset time in the future |
| YoutubeUploader.CheckReset | src/cvcutter/youtube_uploader.py:122-131 | once the reset time has passed the count goes back to 0 and the next reset lies within the coming day; before it nothing changes; the history is never touched |
| YoutubeUploader.Entry | src/cvcutter/youtube_uploader.py:159-169 | a history entry carries an `error` field exactly when a non-empty error message was given |
| YoutubeUploader.CountStatus | src/cvcutter/youtube_uploader.py:179-180 | a status count never exceeds the number of entries |
| YoutubeUploader.SummaryAddsUp | src/cvcutter/youtube_uploader.py:174-183 | when every entry is `success` or `failed`, the two counts add up to the total |
| YoutubeUploader.SummaryWithinTotal | src/cvcutter/youtube_uploader.py:174-183 | whatever the statuses, the successes and the failures together never exceed the number of entries |
| YoutubeUploader.QuotaManager.constructor | src/cvcutter/youtube_uploader.py:76-78 | the manager starts in the loaded state |
| YoutubeUploader.QuotaManager.CheckAndResetQuota | src/cvcutter/youtube_uploader.py:122-131 | the fields become the checked state |
| YoutubeUploader.QuotaManager.CanUploadNow | src/cvcutter/youtube_uploader.py:133-136 | checks the reset first, then answers whether fewer than six uploads were counted |
| YoutubeUploader.QuotaManager.WaitForQuotaReset | src/cvcutter/youtube_uploader.py:138-152 | before the reset time it sleeps until woken and checks the reset again; at or after it nothing happens |
| YoutubeUploader.QuotaManager.IncrementUploadCount | src/cvcutter/youtube_uploader.py:154-157 | the count grows by one and nothing else changes |
| YoutubeUploader.QuotaManager.AddUploadHistory | src/cvcutter/youtube_uploader.py:159-172 | the new entry is appended to the history and nothing else changes |
| YoutubeUploader.QuotaManager.GetUploadSummary | src/cvcutter/youtube_uploader.py:174-183 | the summary counts all history entries, the successful ones and the failed ones (together never more than all), and reports the day's count and the reset time |
| YoutubeUploader.AppendKeepsHistory | src/cvcutter/youtube_uploader.py:171 | appending keeps every earlier entry in place and puts the new one last |
| YoutubeUploader.VideoList | src/cvcutter/youtube_uploader.py:285 | `metadata.get("videos", [])` as `len` and `zip` take it: absent, `""` and `{}` are empty, a list is itself, and any other value is reported as the error it leads to |
| YoutubeUploader.ValidateMetadataMapping | src/cvcutter/youtube_uploader.py:273-295 | the mapping is valid exactly when there are as many videos as metadata entries, and a mismatch reports both counts |
| YoutubeUploader.Backoffs | src/cvcutter/youtube_uploader.py:357-386 | one sleep before each retry |
| YoutubeUploader.BackoffBound | src/cvcutter/youtube_uploader.py:357-386 | the sleep before retry `k` is `random() * 2**k`: from 0 up to, not including, `2**k` seconds |
| YoutubeUploader.UploadFrom | src/cvcutter/youtube_uploader.py:298-404 | the corrected upload makes at least one and at most six attempts (`MAX_RETRIES + 1`) |
| YoutubeUploader.UploadResultIsLastAttempt | src/cvcutter/youtube_uploader.py:347-404 | the upload succeeds exactly when its last attempt did, with that attempt's video id; a failure raises the last attempt's error, which was either not retriable or hit the retry limit |
| YoutubeUploader.UploadRetriesOnlyRetriable | src/cvcutter/youtube_uploader.py:353-393 | every attempt before the last failed with a retriable error: HTTP 500/502/503/504, an `HTTPException` or an `IOError` |
| YoutubeUploader.UploadSucceedsIff | src/cvcutter/youtube_uploader.py:298-404 | the upload succeeds exactly when some attempt within the budget succeeds and every attempt before it failed retriably |
| YoutubeUploader.NonRetriableRaisedAtOnce | src/cvcutter/youtube_uploader.py:366-404 | a first attempt failing with an error that is not retried raises it after that one attempt |
| YoutubeUploader.UploadVideo | src/cvcutter/youtube_uploader.py:298-404 | the retry loop gives the corrected upload's result and attempt count, with one jittered backoff sleep before each retry |
| YoutubeUploader.UploadAsWritten | src/cvcutter/youtube_uploader.py:335-404 | the upload as written, where a retry started inside the outer `try` can be caught and retried again by the outer handler; it makes at least one attempt more than it has made so far |
| YoutubeUploader.AsWrittenResultIsLastAttempt | src/cvcutter/youtube_uploader.py:335-404 | as written, too, the result is the last attempt's: its video id when it uploaded, otherwise the error it raised |
| YoutubeUploader.AsWrittenAgreesWithoutHttpRetry | src/cvcutter/youtube_uploader.py:353-393 | without a retriable HTTP status the code as written behaves as the corrected upload |
| YoutubeUploader.NestedRetryExceedsBudget | src/cvcutter/youtube_uploader.py:353-393 | a 503 followed by five `IOError`s and a success makes seven attempts as written, one more than `MAX_RETRIES + 1`, where the corrected upload gives up after six |
| YoutubeUploader.StepEntry | src/cvcutter/youtube_uploader.py:496-509 | the history entry of one file is `success` exactly when its upload returned, and `failed` when it raised |
| YoutubeUploader.UploadOne | src/cvcutter/youtube_uploader.py:491-511 | one iteration of the batch: quota check, a wait when the quota is used up, `upload_video` as written, then history and count updated |
| YoutubeUploader.BatchUpload | src/cvcutter/youtube_uploader.py:430-524 | `batch_upload` equals the specification Batch, with each file uploaded by `upload_video` as written, and returns a summary of the final state exactly when it finishes normally: no video files, a cancellation or completion |
| YoutubeUploader.UploadPairs | src/cvcutter/youtube_uploader.py:485-511 | the upload loop over the first `n` pairs of files and metadata entries gives the specification loop, whose uploads are `upload_video` as written |
| YoutubeUploader.BatchEntries | src/cvcutter/youtube_uploader.py:487-511 | one history entry per file uploaded |
| YoutubeUploader.BatchEntryAt | src/cvcutter/youtube_uploader.py:487-511 | entry `i` records file `i`, its own clock reading and the outcome of its own upload as written |
| YoutubeUploader.BatchLoopHistory | src/cvcutter/youtube_uploader.py:487-511 | the batch appends exactly these entries to the earlier history, in file order |
| YoutubeUploader.StepHistory | src/cvcutter/youtube_uploader.py:496-509 | each file adds exactly one entry, success or failure |
| YoutubeUploader.BatchLoopKnownStatuses | src/cvcutter/youtube_uploader.py:498-509 | the batch writes only `success` and `failed` entries, so the summary counts keep adding up |
| YoutubeUploader.StepCounts | src/cvcutter/youtube_uploader.py:491-509 | the day's count grows by one exactly when the upload as written returns, after the quota check |
| YoutubeUploader.NestedRetryRecordedAsSuccess | src/cvcutter/youtube_uploader.py:491-501 | the seven-attempt sequence of the upload finding ends with a video id, so the batch records that file as `success` and counts it |
| YoutubeUploader.MismatchRejected | src/cvcutter/youtube_uploader.py:466-476 | a count mismatch raises `ValueError` without a callback, and cancels with nothing uploaded when the callback declines |
| YoutubeUploader.WaitRestoresQuota | src/cvcutter/youtube_uploader.py:138-152 | after a refused quota check, waking at or past the reset time restores the full quota; but when the clock has already passed the reset time at the wait, nothing is reset and the upload goes ahead with the quota used up |
| VideoMapper.GetVideoFilesSorted | src/cvcutter/video_mapper.py:32-66 | one record per video file of the creation-time listing, in that order, record `k` numbered `k + 1` with the file's path, name and creation time |
| VideoMapper.NumberVideos | src/cvcutter/video_mapper.py:51-60 | the `enumerate(..., 1)` loop numbers the files from 1, one record per file |
| VideoMapper.Objects | src/cvcutter/video_mapper.py:80-83 | the performances are usable exactly when every item is a dictionary, and are then those dictionaries in order |
| VideoMapper.PerformanceList | src/cvcutter/video_mapper.py:80-83 | `program_data.get("performances", [])`: absent means none; a list works exactly when every item is a dictionary; an empty string or dictionary sorts to nothing; anything else raises |
| VideoMapper.OrderKey | src/cvcutter/video_mapper.py:83 | a performance without `program_order` sorts as 999; a number, a boolean or a string is a key, and anything else is none |
| VideoMapper.ByProgramOrderTotal | src/cvcutter/video_mapper.py:83 | comparing program orders (numbers by value, strings as text) is a total preorder, so the sort is well defined |
| VideoMapper.SortedPerformancesSpec | src/cvcutter/video_mapper.py:80-83 | the sorted performances are a permutation of the input, in non-decreasing program order (numbers by value, strings code point by code point), with performances of equal order kept in their input order (a stable sort) |
| VideoMapper.TextOrdersSort | src/cvcutter/video_mapper.py:83 | performances whose `program_order` values are all strings are sorted, not rejected |
| VideoMapper.MixedOrdersRaise | src/cvcutter/video_mapper.py:83 | a string `program_order` beside a missing one (999) makes `sorted` raise `TypeError` |
| VideoMapper.Mappings | src/cvcutter/video_mapper.py:91-117 | the index loop builds exactly `max_count` mappings |
| VideoMapper.MapProgramToVideos | src/cvcutter/video_mapper.py:69-131 | the imperative mapping equals the specification ProgramVideoMappings, errors included |
| VideoMapper.MappingsAt | src/cvcutter/video_mapper.py:94-117 | mapping `i` is built from the `i`-th performance and the `i`-th video |
| VideoMapper.ProgramsOfMappings | src/cvcutter/video_mapper.py:99-106 | the performances carried by the mappings are the first ones, in order |
| VideoMapper.VideosOfMappings | src/cvcutter/video_mapper.py:108-115 | the videos carried by the mappings are the first ones, in order |
| VideoMapper.MappingsZip | src/cvcutter/video_mapper.py:69-131 | the mapping is a zip padded to the longer list: `max(#performances, #videos)` entries numbered from 1, entry `i` holding performance `i` when there is one and video `i` when there is one, and every performance and every video appears, in order |
| VideoMapper.ZipShape | src/cvcutter/video_mapper.py:91-117 | the same, for any list of performances and videos |
| VideoMapper.FirstSimpleFrom | src/cvcutter/video_mapper.py:279-288 | without Gemini the first eligible mapping whose names and pieces contain one another is chosen, and none before it matches |
| VideoMapper.JudgeBestSpec | src/cvcutter/video_mapper.py:260-276 | with Gemini the choice is an accepted mapping with a positive score that no accepted mapping exceeds, and the first such; when nothing is chosen no accepted mapping scored above 0 |
| VideoMapper.ChooseEligible | src/cvcutter/video_mapper.py:253-255 | a chosen mapping always has both programme data and a video |
| VideoMapper.BestMatch | src/cvcutter/video_mapper.py:248-288 | the inner loop returns the specification choice |
| VideoMapper.MapWithFormResponses | src/cvcutter/video_mapper.py:218-310 | the outer loop equals the specification MatchResponses, including the `KeyError` of a response without `response_id` |
| VideoMapper.FinalsOrigin | src/cvcutter/video_mapper.py:241-299 | the final mappings come from the responses in order, at most one each; each carries its response and an eligible mapping from the input, and a response yields one exactly when a mapping was chosen for it |
| VideoMapper.Truncate | src/cvcutter/video_mapper.py:373-374 | slicing `[:n]` keeps a prefix of length `min(len, n)` |
| VideoMapper.Strs | src/cvcutter/video_mapper.py:366-369 | the tags enter the metadata as strings, in order |
| VideoMapper.MetadataItems | src/cvcutter/video_mapper.py:326-380 | one metadata entry per final mapping |
| VideoMapper.GenerateUploadMetadata | src/cvcutter/video_mapper.py:313-388 | the loop returns the specification GeneratedMetadata: `AttributeError` when it reaches an entry and some entry lacks programme data or `concert_info` is truthy but not a dictionary, else `{"videos": [...]}` with one item per final mapping |
| VideoMapper.MetadataConcertCases | src/cvcutter/video_mapper.py:326-380 | with no final mappings any `concert_info` gives `{"videos": []}`; with some, a truthy non-dictionary `concert_info` raises; with programme data everywhere and a readable `concert_info` the result is the metadata list |
| VideoMapper.MetadataItemsAt | src/cvcutter/video_mapper.py:326-380 | entry `k` is the metadata of final mapping `k` |
| VideoMapper.MetadataTitle | src/cvcutter/video_mapper.py:336-373 | the title is `piece - performer` (or only the piece) cut to at most 100 characters: a prefix of the full title, equal to it when that fits, and never cutting into the first 100 characters of the piece title |
| VideoMapper.HiddenPerformer | src/cvcutter/video_mapper.py:331-340 | a response with a falsy `display_name` hides the performer: the title is only the piece |
| VideoMapper.MetadataTags | src/cvcutter/video_mapper.py:366-369 | the tags are the three fixed Japanese tags, plus the composer exactly when one is given |
| VideoMapper.MetadataPrivacy | src/cvcutter/video_mapper.py:376-377 | the privacy status is the response's `privacy` when present, else `unlisted`, and the playlist is empty |
| VideoMapper.MetadataDescription | src/cvcutter/video_mapper.py:343-374 | the description is a prefix of at most 5000 characters of the parts joined by newlines; the last part is the automatic-editing footer, and the piece line is always there |
| VideoMapper.UploaderReadsMetadata | src/cvcutter/video_mapper.py:384-388 | the uploader reads the generated metadata back entry for entry, and with as many videos as final mappings the mapping check passes |
| FormConnector.PrivacyValueAsWritten | google_form_connector.py:92-115 | `_parse_privacy_value` as written: always one of `public`, `unlisted`, `private` |
| FormConnector.PrivateWordBecomesPublic | google_form_connector.py:104-111 | as written, an answer containing 非公開 (private) but not 限定 or `unlisted` is read as `public`, because 非公開 contains 公開 and that test comes first; `private` is only ever returned for answers without 非公開 |
| FormConnector.LegacyPrivateChoiceAsWritten | create_google_form.py:225 | the older form's private choice 非公開（本人のみ閲覧可能） is read as `public` by the code as written |
| FormConnector.PrivacyValue | google_form_connector.py:92-115 | the corrected reading: always one of the three privacy levels |
| FormConnector.PrivacyValueSpec | google_form_connector.py:102-115 | the corrected reading tests 非公開 first and returns `private` for it; otherwise it is the code as written: 限定/`unlisted` gives `unlisted`, and 公開 without them gives `public` |
| FormConnector.DisplayNameSpec | google_form_connector.py:117-135 | the display name is hidden exactly when the answer says none of 表示する, `yes`, はい and says one of 表示しない, `no`, いいえ, 匿名; an answer saying neither shows it |
| FormConnector.ShownChoiceRead | src/cvcutter/create_google_form.py:191 | the form's choice 表示する shows the name |
| FormConnector.HiddenChoiceRead | src/cvcutter/create_google_form.py:192 | the form's choice 表示しない（匿名） hides the name |
| FormConnector.PublicChoiceRead | src/cvcutter/create_google_form.py:234 | the form's choice 公開 reads as `public`, as written and corrected |
| FormConnector.LimitedChoiceRead | src/cvcutter/create_google_form.py:238 | the form's choice 限定公開（URLを知っている人のみ閲覧可能） reads as `unlisted`, as written and corrected |
| FormConnector.PrivateChoiceRead | create_google_form.py:225 | with the corrected reading the older form's private choice reads as `private` |
| FormConnector.ExactMatchIsSubsumed | google_form_connector.py:81-88 | a header matches a column exactly when, lower-cased, it contains one of the column's names lower-cased (the exact-match test adds nothing) |
| FormConnector.ColumnIndexFrom | google_form_connector.py:68-90 | `_find_column_index`: the first header matching one of the column's names, or none when no header does |
| FormConnector.ParseRowSpec | google_form_connector.py:192-234 | a data row is skipped exactly when its stripped name or piece title is empty; a kept row is numbered by its place from 1, its timestamp is its cell, its name, piece and extra description are its cells stripped, its display flag is its cell's reading, and its privacy is `_parse_privacy_value` as written of its cell |
| FormConnector.ParsedRowsSpec | google_form_connector.py:161-247 | fewer than two rows raise `ValueError`; otherwise the responses are the kept rows, in row order with increasing numbers, and a data row yields a response exactly when it is kept |
| FormConnector.QuestionMappingLast | google_form_connector.py:434-458 | a category is in the question mapping exactly when some question's title names it, and then holds the id of the last such question |
| FormConnector.DisplayNameTitleIsName | google_form_connector.py:446-449 | the English title `Display name` is taken for the name question, because the `name` test comes first |
| FormConnector.BuildQuestionMapping | google_form_connector.py:424-458 | the item loop builds the specification QuestionMapping |
| FormConnector.ParseFormsApiResponseSpec | google_form_connector.py:460-536 | an API answer is dropped exactly when its first name or piece answer is missing or blank after stripping; a kept one carries the given number, the creation time, the stripped name and piece, the display flag read from its first answer, the privacy `_parse_privacy_value` as written gives its first answer, the stripped extra description, and defaults (shown name, `unlisted`, empty description) for unanswered questions |
| FormConnector.FormResponseParser.constructor | google_form_connector.py:58-66 | a new parser holds no responses |
| FormConnector.FormResponseParser.FindColumnIndex | google_form_connector.py:68-90 | the nested loop returns the specification column index |
| FormConnector.FormResponseParser.FindColumnIndices | google_form_connector.py:180-188 | the index of every one of the six columns |
| FormConnector.FormResponseParser.ParseRows | google_form_connector.py:161-247 | returns the specification ParsedRows, whose privacy is read as written; on success the parser keeps exactly those responses, on failure its responses are unchanged |
| FormConnector.FormResponseParser.LoadFromFormsApi | google_form_connector.py:381-418 | the answers numbered from 1 and parsed with the question mapping of the form's items (privacy read as written), the dropped ones left out; the parser keeps the result |
| FormConnector.ApiResponsesSpec | google_form_connector.py:396-414 | each kept API answer is the parse of one raw response numbered by its place from 1, in arrival order, and a response is kept exactly when it parses |
| FormConnector.SheetIdSpec | google_form_connector.py:260-267 | a value that is not a Sheets URL, or has no `/d/`, is used as it is; otherwise the id is the text after the first `/d/` up to the next `/` or the end |
| FormConnector.MapperReadsResponse | src/cvcutter/video_mapper.py:241-376 | the mapper reads back a response's name, piece, id, display-name flag and privacy exactly as the connector stored them |
| AppConfig.DefaultSectionsAreObjects | src/cvcutter/config_manager.py:7-32 | the built-in settings have exactly the sections `paths`, `processing` and `workflow`, each a dictionary |
| AppConfig.MergedConfigStep | src/cvcutter/config_manager.py:48-52 | adding one more saved section to the merge changes only that section |
| AppConfig.PairsUpdate | src/cvcutter/config_manager.py:50 | `dict.update` with a list succeeds exactly when every item is a key/value pair |
| AppConfig.UpdateOf | src/cvcutter/config_manager.py:50 | `dict.update` takes a dictionary, an empty string, or a list of pairs (two-element lists with a string key, or two-character strings); a number, a boolean, `None` or a non-empty string raise |
| AppConfig.PairsUpdateKeys | src/cvcutter/config_manager.py:50 | updating with a list of pairs adds exactly the keys its pairs name |
| AppConfig.PairsUpdateLast | src/cvcutter/config_manager.py:50 | updating with a list of pairs gives each key it adds the value of the last pair naming it |
| AppConfig.LoadConfig | src/cvcutter/config_manager.py:39-56 | loading equals the specification LoadedConfig: the defaults without a readable file or when a merge raises, else the saved sections merged into them by `dict.update` |
| AppConfig.MergeSections | src/cvcutter/config_manager.py:47-53 | the merge loop succeeds exactly when every saved section that is also a default one is something `dict.update` takes (a dictionary, `""`, or a list of key/value pairs), and then gives the merged settings; otherwise it raises and the defaults are used |
| AppConfig.LoadedConfigSpec | src/cvcutter/config_manager.py:39-53 | the loaded settings have the default and the saved sections; in a section both have, a key the saved value updates with wins and a default key survives; a section only one of them has is taken from it |
| AppConfig.LoadKeepsDefaultKeys | src/cvcutter/config_manager.py:46-56 | whatever the file holds, every default section is present as a dictionary with at least its default keys |
| AppConfig.GetAbsent | src/cvcutter/config_manager.py:66-67 | an absent section or key reads as `None` |
| AppConfig.SetThenGet | src/cvcutter/config_manager.py:69-72 | `set` fails only on a section that is not a dictionary; otherwise the section exists afterwards, the value reads back, and every other section and key reads as before |
| AppConfig.UpdateThenGet | src/cvcutter/config_manager.py:75-78 | `update_section` fails only on a section that is not a dictionary; otherwise updated keys read back, other keys of the section and every other section read as before |
| AppConfig.UpdateOneIsSet | src/cvcutter/config_manager.py:69-78 | updating a section with one key does the same as setting it |
| AppConfig.ConfigManager.constructor | src/cvcutter/config_manager.py:35-37 | the manager remembers its path and holds the loaded settings |
| AppConfig.ConfigManager.Set | src/cvcutter/config_manager.py:69-73 | the settings become those after `set`, or stay as they are with a `TypeError` when the section is not a dictionary |
| AppConfig.ConfigManager.UpdateSection | src/cvcutter/config_manager.py:75-79 | the settings become those after `update_section`, or stay as they are with an `AttributeError` when the section is not a dictionary |
| CreateGoogleForm.UrlsIdentifyForm | src/cvcutter/create_google_form.py:131-133 | `.../forms/d/{id}/edit` and `.../forms/d/{id}/viewform` each determine the form id, and an edit URL never equals a response URL |
| CreateGoogleForm.FormRequestsShape | src/cvcutter/create_google_form.py:148-267 | the batch is the description update followed by five item creations at locations 0 to 4, in the question order, all required but the last |
| CreateGoogleForm.NameTitleCategory | src/cvcutter/create_google_form.py:164 | the connector files the question お名前 under `name` |
| CreateGoogleForm.DisplayTitleCategory | src/cvcutter/create_google_form.py:183 | the connector files 動画に氏名を表示しますか？ under `display_name` |
| CreateGoogleForm.PieceTitleCategory | src/cvcutter/create_google_form.py:206 | the connector files 演奏された曲名を入力してください under `piece_title` |
| CreateGoogleForm.PrivacyTitleCategory | src/cvcutter/create_google_form.py:225 | the connector files 公開設定 under `privacy` |
| CreateGoogleForm.ExtraTitleCategory | src/cvcutter/create_google_form.py:254 | the connector files 動画の説明文に追加したい内容があれば記入してください under `description_extra` |
| CreateGoogleForm.CreatedItemsOfForm | src/cvcutter/create_google_form.py:160-267 | the created form lists the five questions under their titles, each with the question id the API gave it |
| CreateGoogleForm.CreatedFormReadBack | src/cvcutter/create_google_form.py:160-267 | reading the created form back, the connector's question mapping assigns each of its five categories the id of the matching question |
| CreateGoogleForm.ReadBackMapping | google_form_connector.py:434-458 | five items in category order, each filed under its own category, make a mapping holding exactly their ids |
| CreateGoogleForm.CreatedChoicesRead | src/cvcutter/create_google_form.py:190-241 | the connector reads the form's own choices back as meant, both as written and corrected: 表示する shows the name, 表示しない（匿名） hides it, 公開 is `public`, 限定公開（…） is `unlisted` |
| CreateGoogleForm.FormInfo | src/cvcutter/create_google_form.py:286-292 | the returned form record has exactly the keys `form_id`, `form_title`, `edit_url`, `response_url`, `created_at` |
| CreateGoogleForm.CreateConcertFormSpec | src/cvcutter/create_google_form.py:101-294 | the `forms().create` error is raised, else the `batchUpdate` error; otherwise the form is created under the title, the five questions are requested, and the record holds the id, the title (`form_title`), the two URLs of that id and the creation time |
| CreateGoogleForm.NewerOrSameIsPreorder | src/cvcutter/create_google_form.py:332 | ordering by `created_at` text, newest first, is a total preorder |
| CreateGoogleForm.NewestFirstSpec | src/cvcutter/create_google_form.py:332 | the sorted history is a permutation ordered newest first, with entries of equal time kept in their order |
| CreateGoogleForm.FirstWithId | src/cvcutter/create_google_form.py:323-327 | the search finds the first entry with the given `form_id`, or none when no entry has it |
| CreateGoogleForm.UpsertSpec | src/cvcutter/create_google_form.py:321-329 | the new record is always in the history; it replaces the first entry with its `form_id`, everything else staying in place, or is appended when there is none |
| CreateGoogleForm.UpsertIdempotent | src/cvcutter/create_google_form.py:321-329 | saving the same record twice gives the same history as saving it once |
| CreateGoogleForm.SaveFormHistory | src/cvcutter/create_google_form.py:314-340 | the search, replace-or-append and sort give the specification SavedHistory; an unreadable history file is left as it is |
| CreateGoogleForm.SavedHistorySpec | src/cvcutter/create_google_form.py:321-335 | the written history is ordered newest first, holds the upserted entries and the new record, and grows by at most one |
| CreateGoogleForm.LoadFormHistory | src/cvcutter/create_google_form.py:343-366 | at most three entries are returned, and none without a readable history file |
| CreateGoogleForm.LoadFormHistorySpec | src/cvcutter/create_google_form.py:353-363 | `min(3, n)` entries of the history, newest first, and none of the entries left out is newer than one shown |
| CreateGoogleForm.NewFormShownFirst | src/cvcutter/create_google_form.py:314-363 | a form newer than every earlier entry is listed first the next time the history is loaded |
| GeminiUtils.ConfigureGemini | src/cvcutter/gemini_utils.py:11-17 | `ValueError` exactly when the key is empty |
| GeminiUtils.ExtractJsonFromText | src/cvcutter/gemini_utils.py:40-61 | succeeds exactly when `json.loads` accepts the extracted text, with its value; otherwise `ValueError` |
| GeminiUtils.FenceBodyIsPiece | src/cvcutter/gemini_utils.py:46-52 | the stripped body after an opening fence is a contiguous piece of the answer |
| GeminiUtils.FencedTextIsPiece | src/cvcutter/gemini_utils.py:44-54 | the text handed to `json.loads` is a contiguous piece of the answer, whichever branch is taken |
| GeminiUtils.FencedTextOccurs | src/cvcutter/gemini_utils.py:44-54 | the text handed to `json.loads` always occurs in the answer |
| GeminiUtils.FencedTextStripped | src/cvcutter/gemini_utils.py:44-54 | the text handed to `json.loads` has no whitespace left at either end |
| GeminiUtils.FenceBodyClosed | src/cvcutter/gemini_utils.py:47-48 | with a closing fence, the body is the stripped text between the opening fence and the first closing one |
| GeminiUtils.FenceBodyUnclosed | src/cvcutter/gemini_utils.py:47-48 | without a closing fence, `find` gives -1 and the body drops the answer's last character |
| GeminiUtils.JsonFenceIsFence | src/cvcutter/gemini_utils.py:45-49 | every ```` ```json ```` opening is also a plain fence, so the second branch is only reached without one |
| GeminiUtils.JsonFenceFirst | src/cvcutter/gemini_utils.py:45-48 | the body of the first ```` ```json ```` block is used, wherever plain fences stand |
| GeminiUtils.PlainFenceNext | src/cvcutter/gemini_utils.py:49-52 | without a ```` ```json ```` block, the body of the first plain block is used |
| GeminiUtils.NoFenceWhole | src/cvcutter/gemini_utils.py:53-54 | without any fence, the whole answer, stripped, is used |
| PdfParser.WorkflowOf | src/cvcutter/pdf_parser.py:86-87 | the `workflow` section of the loaded settings always holds every default key |
| PdfParser.KeyConfigures | src/cvcutter/pdf_parser.py:87-91 | a string key that passes the function's own test is accepted by `configure_gemini`, so the second guard never raises |
| PdfParser.ExtractAgrees | src/cvcutter/pdf_parser.py:109-140 | extracting the JSON from the answer succeeds exactly when the Gemini helper's extraction does, with the same value |
| PdfParser.HasKey | src/cvcutter/pdf_parser.py:153 | Python's `in`: key membership on a dict, element membership on a list, substring on a string, `TypeError` on anything else |
| PdfParser.Item | src/cvcutter/pdf_parser.py:167 | indexing by a key succeeds exactly on a dict holding the key, with its value |
| PdfParser.EntryWarningsFail | src/cvcutter/pdf_parser.py:164-168 | checking one entry raises `TypeError` exactly when `in` or `[]` cannot be applied to it |
| PdfParser.EntryWarningsOfDict | src/cvcutter/pdf_parser.py:164-168 | on a dict entry nothing is raised, and a warning names the entry's number and each required key that is missing or falsy, and only those |
| PdfParser.WarningsFail | src/cvcutter/pdf_parser.py:164-168 | the warning loop raises `TypeError` exactly when some entry it reaches cannot be checked |
| PdfParser.WarningsOfDicts | src/cvcutter/pdf_parser.py:164-168 | over dict entries the loop never raises, and warns for exactly the pairs of a 1-based entry number and a key missing from that entry |
| PdfParser.ValidateProgramDataSpec | src/cvcutter/pdf_parser.py:143-170 | True exactly when `performances` is a non-empty list whose entries can all be checked; on a dict, False exactly when it is not; any error is `TypeError` |
| PdfParser.MissingFieldsOnlyWarn | src/cvcutter/pdf_parser.py:164-170 | missing or empty fields of dict entries only warn: the programme is still valid |
| PdfParser.MissingPdfFirst | src/cvcutter/pdf_parser.py:79-80 | a missing PDF raises `FileNotFoundError` naming it, before the settings or the API are consulted |
| PdfParser.ParsedProgramSpec | src/cvcutter/pdf_parser.py:173-219 | a returned programme comes from an existing PDF, a truthy key, a successful call made with the key and model, and the parse of the extracted text, and has a non-empty list of dict entries |
| PdfParser.ProgramReturned | src/cvcutter/pdf_parser.py:173-219 | conversely, when all of those hold, the parsed programme is returned unchanged |
| PdfParser.InvalidProgramRejected | src/cvcutter/pdf_parser.py:196-197 | a parsed dict without a non-empty `performances` list raises `ValueError` |
| PdfParser.MissingKeyRejected | src/cvcutter/pdf_parser.py:87-89 | with the PDF present and no truthy key, `ValueError` is raised and the API is not called |

## Left out

- The GUI (`src/cvcutter/app.py`): its threads, the output redirector and the float progress/ETA arithmetic are user interface, not core logic.
- `src/cvcutter/run_youtube_workflow.py` is file-writing orchestration with interactive prompts. It unpacks `batch_upload`'s result as a pair (line 244), although `batch_upload` returns one dictionary, so that call raises; the orchestration is not modelled.
- `src/cvcutter/yolo_tracker.py` (the detection model) and `build_exe.py` (a packaging script) are not part of this model; the tracker's per-frame boxes are an input.
- The root `create_google_form.py` is an older copy of the form builder and is not modelled; only the private choice it offers (line 225) appears, as the input of the privacy finding.
- OAuth and token storage (`authenticate`, `_authenticate_google_api`, `authenticate_forms_api`) are I/O with Google's servers.
- Google API calls (resumable `next_chunk`, `videos().insert`, the playlist insert, Forms and Sheets `execute`): only their outcomes appear, as inputs or oracle functions. `load_from_csv` and `load_from_google_sheets` read files or the network; the model takes the rows they produce, and only the sheet-URL id extraction is modelled.
- `export_to_json` and `get_responses` of the form parser write or return the parsed responses unchanged; the parsed `responses` field stands for them.
- Subprocesses (ffmpeg, the GPU probe, moviepy, tqdm): the commands are modelled as token lists, and the exit codes, the probe result and ffmpeg's output lines are inputs. VideoUtils.GpuArgs takes the probe as a boolean, so it cannot express an `OSError` other than `FileNotFoundError` (a `PermissionError`, say) from running `nvidia-smi`, which `get_gpu_args` does not catch (`src/cvcutter/video_utils.py:70`) and which propagates. The list file's creation and removal in `concatenate_videos` and the copy of a single input are file I/O; only the decision each guard takes and the file's text are modelled.
- `find_audio_offset` (in `sync_audio`, which is not part of this model) is an oracle returning an optional offset.
- Gemini: `call_gemini_api`, `genai.configure` and `match_with_gemini_cli` are oracles. `src/cvcutter/video_mapper.py` imports `run_gemini_cli`, which `src/cvcutter/gemini_utils.py` does not define, so that module cannot even be imported as written; the model takes the matcher as an abstract `(is_match, confidence)` function.
- `json.loads` is an oracle from text to an optional JSON value; the model does not decide which texts are valid JSON.
- The clock, `time.sleep` and `random.random()` are inputs: time is integer seconds (UTC), jitter a real in `[0, 1)`, and ISO timestamp strings are opaque text ordered as text.
- Floating point: offsets, durations and volumes are `real`. Python's `str()` of a float inside an ffmpeg argument is left as a numeric token (`Num`), not spelled out as digits.
- `DEFAULT_CONFIG.copy()` is shallow, so in Python the merge in `load_config` writes saved values into the shared default dictionaries. The model uses value semantics: each load starts from pristine defaults. One consequence is not reproduced: when `dict.update` raises part-way through the merge, the fallback `DEFAULT_CONFIG.copy()` (`src/cvcutter/config_manager.py:54-56`) already holds the sections merged before the raise, while the model returns the untouched defaults.
- Saving and loading the settings file, the form configuration file, the form history file and the upload quota state file are I/O: the saved contents (or their absence or a parse failure) are inputs, and `load_form_config`, a plain file read, is not modelled. `_save_state`, which writes the quota state after every reset, count and history entry (`src/cvcutter/youtube_uploader.py:97-104`, lines 131, 157 and 172), is not modelled; the manager's fields are the state it would write.
- Writing `output_json` in `parse_concert_pdf` is file output and is not modelled.
- `get_app_data_path`, `get_resource_path` and the bundled-executable lookup are path computations on the host; the bundled ffmpeg path is an input.
- Logging (every `logger` call) has no effect on results and is left out.
- Dictionary iteration order is modelled only where the code depends on it (rows, items and lists are sequences); configuration sections are maps.
- A form history entry whose `created_at` is missing or not a string is compared as the empty text; Python's sort would raise on mixed types, and `load_form_history` would then return `[]`.
- Strings.PathJoin, Strings.Basename and Strings.Splitext follow POSIX `os.path`: the separator is `/` only, so Windows' `\\` separators and drive letters are not modelled.
- Strings.Lower lowers ASCII letters only; Python's `str.lower` also lowers other scripts, so a name like `.M\u212AV` (with the Kelvin sign) is a video to the source but not to VideoFiles.IsVideoFile.
- VideoProcessor.SearchTime: `\d` is taken as the ASCII digits `0`-`9`; Python's `re` matches any Unicode decimal digit there.
- DetectPerformances: `cap.isOpened()` is re-tested on every loop iteration in the source; the model takes it as unchanged once the capture is open, and the frame stream ending stands for both. The `show_video` window (the drawing, the `960 / width` scale, which raises for a zero width, and the `q` key that breaks the loop, `src/cvcutter/detect_performances.py:72-88` and line 101) is not modelled; the model is the detector with `show_video` off.
- MapWithFormResponses: a programme entry's `performer_name` or `piece_title` that is not a string reads as `""` (VideoMapper.TextOf, ProgramName, ProgramPiece); Python's `in` at `src/cvcutter/video_mapper.py:280` raises `TypeError` for `None` or a number and tests membership for a list or a dictionary.
- GenerateUploadMetadata: metadata fields that are not strings (performer, piece, composer, privacy, description) read as `""` or their default through `TextField`; Python formats them with `str()` in the title and description, and a `null` piece title with no performer shown raises at `title[:100]`.
- MapProgramToVideos and SortedPerformances: `program_order` values that are lists, dictionaries or `null` have no key and are treated as making `sorted` raise; Python compares lists with lists element by element, and only the `None` and dictionary cases raise.
- VideoList: a non-empty string or dictionary under `videos` is treated as raising; in the source `len` accepts it and the error comes later, when the mismatch message or the upload loop reads its items, and a refused confirmation cancels before that.
- BatchUpload: a `videos` item that is not a dictionary raises `AttributeError` at `video_metadata.get` in the upload loop (after the earlier uploads) or in the mismatch message; the model does not read the items, whose title and description only reach the API, and the upload outcome is an input.
- UploadOne: the as-written upload's back-off sleeps are not modelled (their durations only affect the clock); UploadVideo models them for the corrected loop.
- MergeSections: a list of pairs whose keys are not strings, or whose pairs are dictionaries of two keys, is treated as raising; Python merges them, since `dict.update` takes any two-item iterable.
- LoadConfig: for such a saved section it keeps the defaults, as MergeSections raises there.
- ProcessPair: `os.makedirs` failures that depend on the file system (no permission, a file where a directory should be) are I/O and not modelled; only the type and empty-path errors are. A single path given as a string rather than a list is taken as a one-element list, as the source's normalisation makes it.
- JSON equality follows the model's JSON value, so Python's `True == 1` is not reproduced.

## Findings

| source | as written | input that shows it | evidently intended | confidence | as-written member | corrected member |
|---|---|---|---|---|---|---|
| src/cvcutter/youtube_uploader.py:353-393 | a retriable `HttpError` retries by calling `upload_video` again inside the outer `try`; when that nested chain finally raises its transient error, the outer handler catches it and retries once more, so the retry budget is not a bound | a 503 response, then five `IOError`s, then success: seven attempts are made where at most six (`MAX_RETRIES = 5`) are intended | at most `MAX_RETRIES + 1` attempts in all, with the last result reported | not executed | YoutubeUploader.NestedRetryExceedsBudget | YoutubeUploader.UploadVideo |
| google_form_connector.py:104-111 | the `公開` test comes first, and 非公開 contains 公開, so the `private` branch is never reached through 非公開 | the answer 非公開（本人のみ閲覧可能）, offered by the root `create_google_form.py` at line 225, reads as `public` | 非公開 means private and gives `private` | not executed | FormConnector.PrivateWordBecomesPublic | FormConnector.PrivacyValueSpec |
