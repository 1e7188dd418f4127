# Smart mute: job polling and segment reassembly, in Dafny

This project models two pieces of the audioshake smart-mute client and proves properties of them.

1. **Segment reassembly** (`smart_mute.py`). The tool copies the input audio once. It then visits the detected music regions in the order the detection job listed them. For each region it sends the current slice of the copy to the music-removal job and writes the returned frames back. The write-back follows a fixed length policy:
   - a return of exactly the region's length is copied verbatim;
   - an over-long return is truncated to the region;
   - a short return is copied as a prefix, and the rest of the region is set to silence.

   The model also covers the pipeline around this loop:
   - the `.wav` guard on the input;
   - the rule that the detection job must yield exactly one output file;
   - the name of the output file, `{stem}_smart_mute{suffix}`, written next to the input.
2. **Job driver** (`api.py`). `process_job` and `_process_single_job_no_upload` run the same poll loop:
   - `"completed"` returns the job object;
   - `"failed"` or `"error"` raises;
   - otherwise, an elapsed time strictly past the timeout raises;
   - otherwise the loop sleeps and polls again.

   On completion the loop downloads every output asset with a truthy link, in order. Each file is named `{base}_{model}.{ext}`. The job object gets `output_path` when exactly one file was collected, and `output_paths` otherwise.

Files:
- `wrappers.dfy`: `Option` and `Result`.
- `path_names.dfy`: the `pathlib`/`os.path` rules both programs rely on. These are `name`, `stem`, `suffix`, `with_name`, `with_stem` (Python 3.12 behaviour) and `os.path.join`.
- `reassembly.dfy`: the reassembly loop. It is written as in-place array methods (`AssignSlice`, `FillSlice`, `WriteBack`, `Reassemble`). Each is proved against a specification on sequences (`Reconcile`, `ApplyRegion`, `Reassembled`), and lemmas about that specification follow.
- `job_driver.dfy`: the poll loop and output collection. `PollLoop` and `CollectOutputs` are imperative loops, proved against `Poll` and `CollectedPaths`.
- `smart_mute.dfy`: the input guard, the output path, the detection result's `output_path`, and `Run`, which composes them with `Reassemble`.

Abstractions:
- The network, the clock and file I/O are parameters.
- A job's status requests are a sequence of observations. Each observation is the job object returned, paired with the elapsed seconds at that iteration's deadline check.
- The removal job is a function from the slice sent to the frames returned.
- The detection job's outcome and its parsed events are given to `Run`.
- A frame is a generic value with a caller-supplied silence value. For multi-channel audio, one frame is one row, and numpy's `= 0` zeroes the whole row.

Some behaviours of the code differ from what a reader might expect; the model follows the code:
- Non-`.wav` input is rejected with ValueError; it is not converted.
- The output keeps the input's suffix exactly as written (`.WAV` stays `.WAV`).
- The failure error carries only the job id and the status, with no service-reported detail.
- The timeout error carries the configured timeout, not the elapsed time.
- Output files are named only after the input, the model name and the extension. Two linked assets with the same extension are downloaded to the same path, so the second overwrites the first, and `output_paths` lists the path twice.

## Model

| member | source | states |
|---|---|---|
| `PathNames.RFind` | api.py:87 | the index returned is the last occurrence of the character, or -1 when it does not occur |
| `PathNames.SuffixSplitsName` | api.py:87 | a suffix is empty or a dot followed by at least one character other than '.' and '/'; stem followed by suffix gives back the name |
| `PathNames.StemSuffixRoundTrip` | smart_mute.py:93 | appending a well-formed suffix to a non-empty stem gives a name whose pathlib stem and suffix are exactly those two parts |
| `PathNames.Name` | api.py:87 | the final component contains no '/' |
| `PathNames.NameIsFinalComponent` | api.py:87 | the final component is the tail of the path after its last '/', or the whole path when it has none |
| `PathNames.Suffix` | smart_mute.py:41 | `Path(p).suffix` is empty, or a dot followed by at least one character other than '.' and '/' |
| `PathNames.Stem` | smart_mute.py:93 | `Path(p).stem` has no '/', and stem followed by suffix is the final component |
| `PathNames.WithStem` | smart_mute.py:93 | `with_stem(s)` with a usable stem fails exactly when the name is empty; the new path keeps the directory, is named `s + suffix`, and reads back stem `s` and the old suffix |
| `PathNames.Join` | api.py:90 | `os.path.join(dir, f)` ends in `f`, and starts with `dir` when `f` is relative |
| `PathNames.WithName` | smart_mute.py:93 | `with_name` succeeds exactly when the path has a name and the new name is valid; the result keeps the directory and has the new name |
| `PathNames.JoinName` | api.py:90 | joining a directory and a name without '/' gives a path whose final component is that name |
| `Reassembly.Trunc` | smart_mute.py:67-68 | `int()` truncates toward zero: for non-negative times it is the floor, and the result is a natural number |
| `Reassembly.SampleIndex` | smart_mute.py:67-68 | for a non-negative time, `int(t * sr)` is the index of the last frame starting at or before t |
| `Reassembly.ToRegion` | smart_mute.py:67-68 | an event with 0 <= start_time <= end_time gives 0 <= start_smp <= end_smp |
| `Reassembly.RegionsWithin` | smart_mute.py:66-68 | when every event starts at a non-negative time, ends no earlier than it starts and ends within the audio, every frame range lies inside the buffer, as `Reassemble` and `Run` require |
| `Reassembly.EventRegionWithin` | smart_mute.py:67-68 | an event with 0 <= start <= end and end * sr within the buffer gives frame indices 0 <= start_smp <= end_smp <= length |
| `Reassembly.Reconcile` | smart_mute.py:83-90 | what is written over a region has exactly the region's length; frame j is the returned frame j when one exists, and silence otherwise |
| `Reassembly.ApplyRegion` | smart_mute.py:83-90 | one region's write-back preserves the buffer length, leaves every frame outside [start_smp, end_smp) unchanged, and fills the region as `Reconcile` says |
| `Reassembly.Step` | smart_mute.py:70-90 | one iteration sends the slice of the current buffer and writes the job's frames over the region, padded with silence, leaving every other frame unchanged |
| `Reassembly.Reassembled` | smart_mute.py:63-90 | after all regions the processed buffer has the original's frame count |
| `Reassembly.ExactReturnIsVerbatim` | smart_mute.py:89-90 | an exact-length return replaces the region verbatim and nothing else |
| `Reassembly.ShortReturnIsZeroFilled` | smart_mute.py:85-88 | a return short by k frames fills the region's first target_len - k frames with it and makes its last k frames silence |
| `Reassembly.LongReturnIsTruncated` | smart_mute.py:85-86 | an over-long return contributes only its first target_len frames; nothing before start_smp or from end_smp on changes |
| `Reassembly.NoRegionsNoChange` | smart_mute.py:63-66 | with no regions the output equals the original |
| `Reassembly.ReassembledSplit` | smart_mute.py:66-90 | regions are applied strictly in list order: processing a ++ b is processing a, then b on the result |
| `Reassembly.RegionSeesEarlierWrites` | smart_mute.py:66-72 | the slice sent for region i is read from the buffer already modified by regions 0..i-1 |
| `Reassembly.UncoveredFrameUnchanged` | smart_mute.py:86-90 | a frame covered by no region keeps its original value |
| `Reassembly.LastRegionWins` | smart_mute.py:66-90 | a frame inside the last region holds that region's returned frame (or silence), overwriting whatever earlier overlapping regions wrote |
| `Reassembly.AssignSlice` | smart_mute.py:86 | slice assignment writes the given frames at the offset and leaves every other frame unchanged |
| `Reassembly.FillSlice` | smart_mute.py:88 | `a[lo:hi] = 0` silences exactly the frames lo..hi-1 |
| `Reassembly.WriteBack` | smart_mute.py:83-90 | the array after the source's three branches is `ApplyRegion` of the array before |
| `Reassembly.Reassemble` | smart_mute.py:63-90 | a fresh copy of the original, processed region by region, equals `Reassembled` of the original; the original array is not modified |
| `Reassembly.ScenarioRegion` | smart_mute.py:67-68 | the region [2.0 s, 4.0 s] at 16 kHz is frames [32000, 64000) |
| `Reassembly.ScenarioExactReturn` | smart_mute.py:89-90 | in a 10 s buffer at 16 kHz, a 32000-frame return replaces [32000, 64000) exactly, and the output equals the input elsewhere |
| `Reassembly.ScenarioShortReturn` | smart_mute.py:85-88 | with a 1.5 s return, frames 56000..63999 (the last 8000 of the region) become silence and the rest of the region is the return |
| `JobDriver.HasLink` | api.py:83 | `a.get("link")` is truthy: the key is present and the link is not empty |
| `JobDriver.ModelName` | api.py:85 | `metadata.get("name", "output")` |
| `JobDriver.FormatExt` | api.py:87 | the extension is never empty and has no '.' or '/'; it is "wav" when the asset name is missing or has no suffix, and otherwise it is the name's suffix without its dot |
| `JobDriver.DefaultNameSuffix` | api.py:87 | the default asset name "output.wav" has the suffix ".wav" |
| `JobDriver.OutputFileName` | api.py:89 | pathlib reads the file name back as stem `{base}_{model}` and suffix `.{ext}`; it has no '/' when neither name has one |
| `JobDriver.OutputPathFor` | api.py:90 | the download path ends in the file name, and a file name without '/' is its final component |
| `JobDriver.SameExtensionSamePath` | api.py:85-90 | two assets whose names give the same extension get the same download path |
| `JobDriver.SharedExtensionCollides` | api.py:82-97 | two linked assets with the same extension are both downloaded to one path, and `output_paths` lists that path twice |
| `JobDriver.OutputFileNameParts` | api.py:85-90 | each path starts with the output directory and has the final component `{base}_{model}.{ext}`; pathlib reads back stem `{base}_{model}` and the asset's own suffix |
| `JobDriver.Linked` | api.py:82-83 | only assets with a truthy link are kept, and all of them come from `outputAssets` |
| `JobDriver.CollectedPaths` | api.py:82-92 | there is one path per linked asset, the j-th path naming the j-th linked asset |
| `JobDriver.CollectedPathsAppend` | api.py:82-92 | paths are collected in `outputAssets` order: collecting a ++ b is collecting a, then b |
| `JobDriver.LinkedAppend` | api.py:82-83 | the link filter preserves order across concatenation |
| `JobDriver.LinkedMembership` | api.py:82-83 | an asset is collected if and only if it is one of `outputAssets` and has a truthy link |
| `JobDriver.SingleLinkIff` | api.py:94-97 | exactly one path is collected if and only if exactly one asset has a truthy link |
| `JobDriver.NoLinkIff` | api.py:94-97 | no path is collected if and only if no asset has a truthy link |
| `JobDriver.FieldFor` | api.py:94-97 | `output_path` is set exactly when one file was collected; with zero or several files, `output_paths` holds the whole list |
| `JobDriver.Decide` | api.py:79-106 | in one iteration, completion wins, then failed/error, then elapsed > timeout strictly; any other status with elapsed <= timeout polls again |
| `JobDriver.Poll` | api.py:77-106 | a completed result is the job object of an observed "completed" status; a failure names the job and "failed" or "error"; a timeout names the job and the configured timeout |
| `JobDriver.PollStopsAtFirstDecision` | api.py:77-106 | the loop ends with the decision of the first observation that is terminal or past the deadline |
| `JobDriver.PollNeedsMoreIff` | api.py:77-106 | the loop is still running after the observations if and only if every one was non-terminal and within the timeout |
| `JobDriver.PollConsumesInOrder` | api.py:77-106 | once the loop has ended, later observations change nothing; while it runs, it continues with them |
| `JobDriver.FailureReportedPastDeadline` | api.py:100-104 | "failed"/"error" raises with the job id and status, even when the elapsed time is past the timeout |
| `JobDriver.CompletionIgnoresDeadline` | api.py:81-98 | "completed" returns the job object with its collected paths, whatever the elapsed time |
| `JobDriver.TimeoutOnlyWhenOverdue` | api.py:103-104 | a timeout names the job and the timeout, and happens only after a non-terminal status was seen with elapsed strictly greater than the timeout |
| `JobDriver.AtDeadlineKeepsPolling` | api.py:103-106 | an elapsed time equal to the timeout does not time out; the loop polls again |
| `JobDriver.CollectOutputs` | api.py:82-92 | the appending loop produces exactly `CollectedPaths` |
| `JobDriver.PollLoop` | api.py:77-106 | the `while True` loop returns exactly `Poll` of the observations |
| `JobDriver.ProcessJob` | api.py:74-106 | `process_job` makes the `Poll` decisions, naming files after `Path(file_path).stem` |
| `JobDriver.ProcessSingleJobNoUpload` | api.py:125-154 | it makes the same `Poll` decisions and gives the same result shape as `process_job`, with the base name supplied by the caller |
| `SmartMute.IsWavInput` | smart_mute.py:41 | an accepted path has a four-character suffix and a non-empty stem |
| `SmartMute.WavGuardIff` | smart_mute.py:41-42 | input is accepted if and only if its final component is longer than four characters and ends in ".wav" in any case |
| `SmartMute.MutedOutputPath` | smart_mute.py:93 | the `_smart_mute` path exists exactly when the input has a name; it is in the same directory and named `stem + "_smart_mute" + suffix` |
| `SmartMute.MutedOutputPathShape` | smart_mute.py:93 | for accepted input, the output path exists, has the same directory, stem `stem + "_smart_mute"`, and the input's suffix exactly as written |
| `SmartMute.UpperCaseSuffixKept` | smart_mute.py:93 | `dir/base.WAV` is accepted and becomes `dir/base_smart_mute.WAV` |
| `SmartMute.DetectionOutputPathIff` | smart_mute.py:58 | a completed detection result has `output_path` if and only if exactly one asset has a truthy link; it is then that asset's download path |
| `SmartMute.Prepare` | smart_mute.py:41-93 | the pipeline gets to write output if and only if the input passes the guard and detection has a single output path. Non-wav input fails first, with ValueError. For wav input, a failed or timed-out detection propagates that error, and a completed detection with zero or several files fails with the missing `output_path` |
| `SmartMute.Run` | smart_mute.py:38-96 | on success, the output path is the `_smart_mute` sibling and the processed audio is the reassembly of the original over the events' frame ranges |

## Left out

- Upload, job creation, status requests and downloads (`upload_file`, `create_job`, `get_job`, `download_asset`) are network I/O. The job id is a parameter. Status responses are the observation sequence. A download is represented by the path it writes to; file contents are not modelled, so an overwritten download (see `JobDriver.SharedExtensionCollides`) shows only as a repeated path. Their HTTP errors are not modelled.
- `process_jobs` (the thread-pool fan-out) is left out: its result order depends on thread completion.
- `time.time()`, `time.sleep()` and the poll interval are replaced by the elapsed values in the observations. `os.makedirs`, `tempfile.mkdtemp` and `shutil.rmtree` (temporary workspace cleanup) are left out as file-system effects.
- `sf.read`/`sf.write` and `json.load` are left out: the audio is given as an array and the events as a parsed sequence. The per-slice `slice_{i:03d}.wav` files are not named, and the `path.exists()` check is not modelled.
- The removal job always returns frames. A removal job that raises, which aborts `smart_mute` before anything is written, is not modelled.
- `SmartMute.Run`: requires every event's frame range to satisfy 0 <= start_smp <= end_smp <= frame count, the same restriction as `Reassembly.Reassemble`. Events ending past the audio, whose indices numpy clamps and usually processes without error, and events with a negative start, which Python counts from the end, are not covered. The requirement applies only when the input passes the guard and detection yields one output path, the only case in which the events are read.
- `Reassembly.Reassemble`: requires every region to satisfy 0 <= start_smp <= end_smp <= frame count. The model does not cover regions outside that range. For those, numpy clamps indices past the end and counts negative ones from the end, and may raise a broadcast error or write a short range.
- `Reassembly.SampleIndex`: uses exact real multiplication. `int(ev["start_time"] * sr)` on floating point can round the product differently.
- `PathNames.Lower`: lower-cases ASCII letters only. Python's `str.lower` is Unicode-wide; no non-ASCII character lower-cases to '.', 'w', 'a' or 'v', so the guard still decides the same way.
- `PathNames.Name`: takes the text after the last '/'. pathlib also drops trailing slashes, repeated slashes and '.' components. `smart_mute` resolves its path first, so its input has none of these, but the other uses are not resolved.
- `JobDriver.FormatExt`: an asset name from the service is not normalised. For a name ending in '/' (such as "a.mp3/") pathlib finds the suffix ".mp3", but the model finds no name and falls back to "wav".
- `JobDriver.ProcessJob`: the base name is taken from `file_path` without normalisation. For a path ending in '/' or in a '.' component, pathlib's stem differs from the model's.
- Python's `expanduser`/`resolve`, the CLI entry point and printing are left out.
- `JobDriver.Outcome.NeedMore` exists only in the model. The real loop never ends without a terminal status or a timeout; `NeedMore` means the observations ran out first.
- Asset names and `metadata["name"]` are modelled as optional strings; JSON values of other types are not modelled.
