# ComputerUseAI core, modelled in Dafny

ComputerUseAI records what a user does on the desktop, then:

- keeps screen frames and audio segments;
- turns them into text with OCR and speech-to-text;
- asks a local language model whether the activity is a repetitive workflow;
- stores such workflows and replays them as automation steps.

This project models the decision logic of that system and proves what it promises:

- **Retention** (`Cleanup`): the age pass, the size pass and the hard-delete pass over capture and event rows that carry a soft-delete flag.
- **Executor** (`Executor`):
  - loading a workflow file with defaults;
  - dispatching a step to an action;
  - the retry loop;
  - running a workflow single-flight.
- **Audio segmenter** (`AudioCapture`): the capture loop over queue items, cutting segments of `segment_seconds * sample_rate` samples, and the voice check.
- **Screen change gate** (`ScreenCapture`):
  - the frame difference ratio;
  - the save decision with the remembered previous frame;
  - resize-to-cap;
  - the file name format.
- **Processing pipeline** (`Pipeline`):
  - the analysis timer;
  - processing an audio file and a video file;
  - selecting the ten newest live captures;
  - gating which analysed workflows are stored and announced.
- **Small transforms:**
  - workflow signatures and greedy pattern grouping (`PatternRecognition`);
  - automation plans (`WorkflowGenerator`);
  - the OCR row filter (`OcrEngine`);
  - screen JSON (`ScreenAnalyzer`);
  - transcript assembly and engine fallback (`SpeechToText`);
  - the language-model defaults, reply parsing and prompt (`LlmInterface`), where a loaded model's analysis always ends in the default result because of an unbound name;
  - verification routing and text matching (`Verification`);
  - `human_size` and the retry delay (`Utils`).

Shared modules:

- `Wrappers` holds `Option`.
- `Json` holds decoded JSON values and Python's `dict.get`, truthiness and iteration over them.
- `Strings` holds `strip`, `lower`, `join`, substring search and decimal rendering.
- `Storage` holds the database tables and the file system as classes, the live-row index and the timestamp sort.

The world is replaced by parameters:

- **The clock:** `now`, plus `LocalTime` and milliseconds for file names.
- **The database:**
  - a `Database` object;
  - a `commitOk` flag that says whether the commit succeeds.
- **The file system:**
  - a `FileSystem` object;
  - a set of `locked` paths whose unlink raises.
- **Engines treated as oracles:**
  - Tesseract: a `TesseractRun` value;
  - speech-to-text: a `Transcription` value;
  - OpenCV: a `VideoRead` value;
  - the language model: an `Llm` value plus a `JsonParser` function;
  - TF-IDF similarity: a `sim` function;
  - WebRTC VAD: a `Vad` function.
- **The desktop:** a `Device` function that says whether an attempt of an action succeeds.
- **Queues and threads:** the items a loop will dequeue, given in advance, plus the index at which `stop()` cleared the running flag.

## Model

| member | source | states |
|---|---|---|
| Utils.HumanSize | src/utils.py:73-78 | the method's loop computes the text `human_size` returns: floor-divide by 1024 while the value is at least 1024 (five times at most) and print the value reached with its unit |
| Utils.HumanSizeUnit | src/utils.py:74-77 | the k-th unit is chosen iff 1024^k <= size < 1024^(k+1); B covers everything below 1024 and PB everything from 1024^5 on |
| Utils.HumanSizeKilobytes | src/utils.py:76-77 | integer division makes the printed fraction zero: 1536 bytes gives "1.0 KB" |
| Utils.HumanSizeBytes | src/utils.py:75-76 | 1023 gives "1023.0 B" |
| Utils.HumanSizePetabytes | src/utils.py:78 | sizes from 1024^5 on are printed in PB after exactly five divisions |
| Utils.ReducedRange | src/utils.py:74-77 | nothing below 1024 is divided; the printed value is below 1024 unless the units ran out |
| Utils.RetryDelayBounds | src/utils.py:101-102 | the delay `min(60, 2**i)` is positive, at most 60, non-decreasing in i, equal to 2^i for i in 0..5 and 60 from 6 on |
| Strings.StripTrimmed | src/processing/ocr_engine.py:80 | a stripped string neither starts nor ends with a stripped character |
| Strings.LowerIdempotent | src/automation/executor.py:122 | lowering twice is lowering once |
| Strings.ZeroPadValue | src/capture/screen_capture.py:71 | a zero-padded rendering reads back as the number |
| Strings.ZeroPadLength | src/capture/screen_capture.py:71 | a number below 10^width renders in exactly `width` digits |
| Storage.LiveIndices | src/processing/pipeline.py:213 | the indices of exactly the rows not flagged deleted, increasing |
| Storage.SortByTime | src/storage/cleanup.py:99 | `ORDER BY timestamp ASC`: a permutation of the given indices, sorted by timestamp |
| Cleanup.AgePassMarksExactlyStale | src/storage/cleanup.py:26-44 | after the age pass a row is deleted iff it was deleted before or is older than the cutoff; nothing but the flag changes |
| Cleanup.AgePassIdempotent | src/storage/cleanup.py:27-44 | a second age pass with the same cutoff flags nothing and changes nothing |
| Cleanup.AgePassCountsFlips | src/storage/cleanup.py:31-44 | the count reported for a table is the number of rows that went from live to deleted |
| Cleanup.FlagStale | src/storage/cleanup.py:26-44 | the loop flags exactly the stale rows in place and counts them |
| Cleanup.UnlinkExpired | src/storage/cleanup.py:56-66 | the failsafe unlinks every file below the directories older than the cutoff (except files whose unlink raises) and counts them |
| Cleanup.CleanupOldFiles | src/storage/cleanup.py:16-71 | captures and events are flagged when the commit succeeds; the failsafe runs whatever the database did; the result adds the rows counted to the files unlinked |
| Cleanup.EvictionOrder | src/storage/cleanup.py:98-100 | the live captures, each once, oldest first |
| Cleanup.SizePassMarks | src/storage/cleanup.py:102-108 | the captures flagged are a prefix of the eviction order |
| Cleanup.EvictCountShortest | src/storage/cleanup.py:102-104 | the flagged prefix is the shortest that brings the running total within budget, or the whole order |
| Cleanup.EvictionOrderDistinct | src/storage/cleanup.py:98-100 | the eviction order lists each live capture exactly once, and nothing else |
| Cleanup.LiveBytesFlip | src/storage/cleanup.py:106-107 | flagging one live capture takes its size off the live total |
| Cleanup.LiveBytesMarked | src/storage/cleanup.py:102-107 | flagging distinct live captures takes exactly their sizes off the live total |
| Cleanup.SizePassNoop | src/storage/cleanup.py:91-93 | within budget already, the size pass flags nothing and changes nothing |
| Cleanup.SizePassFlagsOnlyLive | src/storage/cleanup.py:98-108 | only live captures are flagged, and only their flag changes |
| Cleanup.SizePassWithinBudget | src/storage/cleanup.py:102-108 | afterwards the live total is within budget unless every capture is flagged |
| Cleanup.SizePassShortest | src/storage/cleanup.py:102-108 | flagging any shorter oldest-first prefix leaves the total over budget |
| Cleanup.SizePassOldestFirst | src/storage/cleanup.py:97-108 | no capture left live is older than a capture the pass flagged |
| Cleanup.RetentionPolicyHolds | src/storage/cleanup.py:16-135 | after the age pass and the size pass no live capture is older than the cutoff, and the live total is within budget or every capture is flagged |
| Cleanup.FlagPrefix | src/storage/cleanup.py:102-108 | the flagging loop flags exactly the shortest oldest-first prefix and counts it |
| Cleanup.FlagOldest | src/storage/cleanup.py:97-108 | flagging over the live captures oldest first gives exactly `SizePassMarks` and the table `AfterSizePass` |
| Cleanup.UnlinkEach | src/storage/cleanup.py:123-130 | each path is unlinked unless its unlink raises |
| Cleanup.CleanupSizeLimit | src/storage/cleanup.py:74-135 | on a successful commit the captures are flagged oldest first and only their files are unlinked, and the number flagged is returned; on a failed commit nothing changes and 0 is returned; events are never touched |
| Cleanup.HardDeletePartitions | src/storage/cleanup.py:150-177 | every row either survives or is purged (a multiset partition) |
| Cleanup.HardDeleteSelects | src/storage/cleanup.py:150-161 | a purged row was flagged, older than the cutoff and removable; a survivor is not all three |
| Cleanup.HardDeleteKeepsLive | src/storage/cleanup.py:150-152 | a row not flagged deleted is never removed |
| Cleanup.PhysicalCleanupDeletedRecords | src/storage/cleanup.py:138-186 | flagged rows older than the cutoff are removed; a capture whose unlink raises is skipped; the count is the rows removed; a failed commit keeps the rows but not the files |
| Executor.LoadWorkflowSteps | src/automation/executor.py:44-56 | a list of step dictionaries loads one step per dictionary in order, each field as given or, when missing, as "noop", "", "", 3 and 5 |
| Executor.LoadWorkflowDefaults | src/automation/executor.py:46-52 | empty step dictionaries load as steps holding only the defaults |
| Executor.LoadWorkflowErrors | src/automation/executor.py:40-59 | an unreadable file, a document that is not an object, a missing `steps`, or a `steps` whose iteration raises gives no steps |
| Executor.DispatchIgnoresCase | src/automation/executor.py:122 | the action type matches case-insensitively |
| Executor.AttemptFixedOutcomes | src/automation/executor.py:120-159 | `noop` and the default wait succeed; a click without x and y, a key combination that is not a list, an unknown kind and a non-string action type fail, whatever the desktop does |
| Executor.StepOutcomeIff | src/automation/executor.py:100-118 | a step passes iff one of its first `retry_count` attempts succeeds; a count <= 0 fails; a count that is not an integer raises |
| Executor.ExecuteStep | src/automation/executor.py:100-118 | the retry loop makes at most `retry_count` attempts and returns on the first success, which is its last attempt; every earlier attempt failed |
| Executor.RunFromOutcome | src/automation/executor.py:73-96 | a run succeeds iff every step passes, completing all; otherwise it stops at the first step that does not pass, counts the steps before it, and reports "Step i+1 failed: action" or the TypeError text |
| Executor.FailureMessageNumber | src/automation/executor.py:78 | the failure message names the step by its 1-based number |
| Executor.WorkflowExecutor.constructor | src/automation/executor.py:34-36 | a new executor is not running |
| Executor.WorkflowExecutor.ExecuteWorkflow | src/automation/executor.py:61-98 | while running, the call is refused with "Another workflow is already running" and no step runs; otherwise the result is that of the run, and the flag is clear afterwards |
| Executor.WorkflowExecutor.StopExecution | src/automation/executor.py:161-164 | the flag is cleared |
| Executor.WorkflowExecutor.IsRunning | src/automation/executor.py:166-168 | reports the flag |
| AudioCapture.Mono | src/capture/audio_capture.py:138 | the first channel has one sample per row |
| AudioCapture.NoVadMeansVoice | src/capture/audio_capture.py:132-134 | without a VAD every chunk counts as voice |
| AudioCapture.ContainsVoiceMissesLastFrame | src/capture/audio_capture.py:140 | as written, a chunk of exactly one speech frame is not voice; the corrected check finds it |
| AudioCapture.AnySpeechFinds | src/capture/audio_capture.py:140-143 | a speech frame in the scanned range makes the scan succeed |
| AudioCapture.AnySpeechWitness | src/capture/audio_capture.py:140-143 | a successful scan has a speech frame as witness |
| AudioCapture.ContainsVoiceExamined | src/capture/audio_capture.py:132-144 | the corrected check reports voice iff some full frame of the chunk is speech |
| AudioCapture.SegmentLoop | src/capture/audio_capture.py:77-114 | the loop ends having taken only items up to the first item taken after `stop` |
| AudioCapture.WrittenAppend | src/capture/audio_capture.py:108-114 | a cut is announced exactly when its file was written |
| AudioCapture.SegmentLoopConserves | src/capture/audio_capture.py:73-114 | the segments cut, then the leftover partial segment, are exactly the samples of the chunks taken while running, in order |
| AudioCapture.SegmentLoopCutsFull | src/capture/audio_capture.py:105-114 | every segment cut holds at least `segment_seconds * sample_rate` samples |
| AudioCapture.AnnouncedSegmentsFull | src/capture/audio_capture.py:105-111 | every segment written and announced holds at least `segment_seconds * sample_rate` samples |
| AudioCapture.SegmentLoopLeftoverShort | src/capture/audio_capture.py:98-114 | without a VAD the partial segment left at the end is shorter than a full one |
| AudioCapture.SegmentLoopEnds | src/capture/audio_capture.py:80-95 | the loop ends at the first sentinel taken while running |
| AudioCapture.AudioCapture.constructor | src/capture/audio_capture.py:36-44 | a new capture has no stream, no detector and nothing queued or announced |
| AudioCapture.AudioCapture.Stop | src/capture/audio_capture.py:146-154 | the flag is cleared and a sentinel is queued |
| AudioCapture.AudioCapture.Announce | src/capture/audio_capture.py:108-111 | a segment is emitted exactly when its file was written |
| AudioCapture.AudioCapture.Start | src/capture/audio_capture.py:52-130 | a stream that fails to open leaves the flag clear and runs no loop; otherwise the segments written are announced, the items taken leave the queue, and the stream is closed |
| ScreenCapture.SumAbsDiffBounds | src/capture/screen_capture.py:59 | the sum of absolute differences is at most 255 per pixel, zero iff the frames are equal, and symmetric |
| ScreenCapture.RatioInUnitInterval | src/capture/screen_capture.py:56-60 | the ratio lies in [0, 1] and does not depend on the order of the frames |
| ScreenCapture.RatioZeroIffIdentical | src/capture/screen_capture.py:56-60 | same-shape frames have ratio 0 iff they are identical |
| ScreenCapture.RatioBlackWhite | src/capture/screen_capture.py:56-60 | all black against all white gives ratio 1 |
| ScreenCapture.RatioShapeChange | src/capture/screen_capture.py:57-58 | frames of different shapes give ratio 1 |
| ScreenCapture.ShouldSaveRepeated | src/capture/screen_capture.py:62-66 | with a positive threshold a frame identical to the previous one is not saved |
| ScreenCapture.ScaleShorterSide | src/capture/screen_capture.py:39-44 | the scaled shorter side is the proportional size rounded down, and at most the cap |
| ScreenCapture.ResizeFits | src/capture/screen_capture.py:34-47 | a frame within the cap is unchanged; otherwise the longer side becomes the cap and the other side is proportional, rounded down |
| ScreenCapture.MillisRange | src/capture/screen_capture.py:70 | the milliseconds lie in 0..999 |
| ScreenCapture.NameFieldsWidths | src/capture/screen_capture.py:69-71 | each field of the file name has its fixed width |
| ScreenCapture.NameFieldsValues | src/capture/screen_capture.py:69-71 | the numeric fields read back as year, month, day, hour, minute, second and milliseconds |
| ScreenCapture.FileNameRoundTrip | src/capture/screen_capture.py:68-71 | parsing `screen_YYYYMMDD_HHMMSS_mmm.format` gives back the time, the milliseconds and the format |
| ScreenCapture.FrameIntervalBounds | src/capture/screen_capture.py:79 | the interval is positive and at most one second; an fps below 1 counts as 1 |
| ScreenCapture.CaptureRunExtends | src/capture/screen_capture.py:82-92 | the loop only appends to what was saved |
| ScreenCapture.SavedFramesChange | src/capture/screen_capture.py:82-92 | each saved frame after the first differs from the one saved before it by at least the threshold, and the last frame saved is the one kept for comparison |
| ScreenCapture.FirstFrameSaved | src/capture/screen_capture.py:76-92 | a fresh capture saves its first frame |
| ScreenCapture.ScreenCapture.constructor | src/capture/screen_capture.py:26-32 | a new capture has no previous frame and is not running |
| ScreenCapture.ScreenCapture.Stop | src/capture/screen_capture.py:99-100 | the flag is cleared |
| ScreenCapture.ScreenCapture.Start | src/capture/screen_capture.py:76-97 | the saved frames are those of the run, the previous frame is the last one saved, and the flag is clear afterwards |
| Verification.AnyContainsIff | src/automation/verification.py:33 | some item's lower-cased text contains the needle iff the scan finds it |
| Verification.TextOnScreenIff | src/automation/verification.py:16-47 | a text check passes iff the lower-cased expected text occurs in some lower-cased item text; never with no items or a failed screenshot |
| Verification.TextOnScreenCase | src/automation/verification.py:33 | case does not matter on either side; an empty expected text is found on any screen with text |
| Verification.WindowCheckWithoutWin32 | src/automation/verification.py:49-62 | without win32 the window check passes iff it gets to poll (a positive timeout) |
| Verification.RouteByExactName | src/automation/verification.py:122-146 | only the four exact names select a check; anything else passes; texts default to "" and timeouts to 5 |
| Verification.FailuresFail | src/automation/verification.py:16-120 | a screenshot, window read or image search that raised fails its check |
| OcrEngine.FilterEntries | src/processing/ocr_engine.py:76-100 | the filtering loop returns exactly `KeptItems`, the row-by-row filter the lemmas below characterise |
| OcrEngine.KeptItemsConcat | src/processing/ocr_engine.py:79-100 | the filter keeps order and decides row by row |
| OcrEngine.KeptItemsSingle | src/processing/ocr_engine.py:88-100 | a row contributes its item iff its stripped text is non-empty and its confidence is at least 50 |
| OcrEngine.UnparseableDropped | src/processing/ocr_engine.py:82-88 | a row whose confidence does not parse never shows up |
| OcrEngine.KeptItemsWellFormed | src/processing/ocr_engine.py:79-100 | at most one item per row; every item has stripped non-empty text, confidence at least 50 and a four-number box |
| OcrEngine.ExtractFailures | src/processing/ocr_engine.py:46-110 | an array of the wrong shape, an unsupported input, a missing binary or a raised error give no items |
| ScreenAnalyzer.ScreenJsonOfOcr | src/processing/screen_analyzer.py:22-42 | `visible_text` is the item texts in order; application and title pass through; the other fields are fixed |
| ScreenAnalyzer.OcrItemsTexted | src/processing/screen_analyzer.py:29 | every item of an OCR result has its text under `text` |
| ScreenAnalyzer.ScreenJsonNoItems | src/processing/screen_analyzer.py:29 | no `items` key gives no visible text |
| SpeechToText.EngineNameMatches | src/processing/speech_to_text.py:24-42 | whispercpp only when configured and it loads; faster-whisper as the fallback whenever it loads, renaming the engine; otherwise no engine and the name unchanged |
| SpeechToText.SpeechToText.constructor | src/processing/speech_to_text.py:20-22 | the engine is chosen by the fallback rule |
| SpeechToText.SpeechToText.InitEngine | src/processing/speech_to_text.py:24-42 | the engine and its name follow the fallback rule |
| SpeechToText.TranscriptAssembly | src/processing/speech_to_text.py:44-67 | no engine or a raised error gives the empty result; otherwise the timestamps are the segments, the text is stripped and is the segment texts joined by spaces; the confidence is 0.8 for whispercpp, and for faster-whisper the reported language probability or 0.8 when there is none |
| LlmInterface.SafeJsonOutcome | src/intelligence/llm_interface.py:73-83 | as written, a stripped text without the "```)" marker that parses gives the parsed value; otherwise the fallback whose summary is the first 200 characters |
| LlmInterface.UnfenceBody | src/intelligence/llm_interface.py:80 | stripping backticks and spaces from a fenced text leaves its body |
| LlmInterface.SafeJsonUnfences | src/intelligence/llm_interface.py:79-81 | with the intended test a fenced reply is parsed without its fences |
| LlmInterface.SafeJsonAsWrittenKeepsFences | src/intelligence/llm_interface.py:79-81 | as written, a fenced reply not starting with ")" goes to the parser fences and all |
| LlmInterface.FenceCheckMissesFence | src/intelligence/llm_interface.py:79 | "```\n{}\n```" falls back as written and parses with the intended test |
| LlmInterface.AnalyzeWorkflowDefaults | src/intelligence/llm_interface.py:41-61 | as written every call gives the default: summary "", steps [], not repetitive, potential "low"; a loaded model fails on the unbound name `torch` |
| LlmInterface.AnalyzeWorkflowIntendedReply | src/intelligence/llm_interface.py:41-61 | with `torch` bound, a loaded model's reply after the prompt is what the parser makes of it, or the fallback; no model or a raised generation gives the default |
| LlmInterface.TorchNameErrorDiscardsReply | src/intelligence/llm_interface.py:28-61 | a reply parsing to a workflow other than the default is returned once `torch` is bound, and replaced by the default as written |
| LlmInterface.PromptHeadings | src/intelligence/llm_interface.py:63-71 | the prompt has the three section headings |
| LlmInterface.PromptData | src/intelligence/llm_interface.py:66-68 | the prompt carries the screens, each transcript (newline-joined) and the events |
| LlmInterface.FormatKeys | src/intelligence/llm_interface.py:70 | the closing instruction names each reply key |
| LlmInterface.PromptKeys | src/intelligence/llm_interface.py:63-71 | the prompt names the four reply keys |
| PatternRecognition.Actions | src/processing/pattern_recognition.py:12 | the step actions in order, present iff every action is a string |
| PatternRecognition.SignatureTextMentions | src/processing/pattern_recognition.py:14 | the signature text mentions the application, each action and the summary |
| PatternRecognition.SignatureMentions | src/processing/pattern_recognition.py:10-14 | a workflow's signature mentions its application, each action and its summary |
| PatternRecognition.SignatureOfEmpty | src/processing/pattern_recognition.py:10-14 | missing keys give " \|  \| " |
| PatternRecognition.SignatureRejectsNonStringAction | src/processing/pattern_recognition.py:12 | a non-string action makes the signature raise |
| PatternRecognition.LaterBounds | src/processing/pattern_recognition.py:36-41 | the later members lie after the anchor, in increasing order |
| PatternRecognition.LaterExact | src/processing/pattern_recognition.py:36-41 | the inner loop keeps exactly the unused later indices similar to the anchor |
| PatternRecognition.CollectGroup | src/processing/pattern_recognition.py:34-41 | the inner loop collects the group's workflows and adds its indices to `used` |
| PatternRecognition.GroupFacts | src/processing/pattern_recognition.py:34-41 | a group starts at its anchor, increases, stays in range, is unused and similar to the anchor |
| PatternRecognition.DetectRepetitivePatterns | src/processing/pattern_recognition.py:28-52 | the nested loops return exactly the patterns of the scan `Run`, whose properties `DetectPromises` states |
| PatternRecognition.RunSound | src/processing/pattern_recognition.py:31-52 | the outer loop keeps the scan invariant |
| PatternRecognition.DetectPromises | src/processing/pattern_recognition.py:28-52 | groups of at least three, increasing anchors, pairwise disjoint, total occurrences at most the input size, each named after its anchor with the anchor as template and confidence 0.9 |
| PatternRecognition.DetectThreeOfFour | src/processing/pattern_recognition.py:28-52 | three workflows similar to the first and a fourth not give one pattern of three at index 0 |
| WorkflowGenerator.PlanEntries | src/intelligence/workflow_generator.py:6-20 | one entry per step in order: the action or "noop", the target or "", no verification, 2 retries, 5 s |
| WorkflowGenerator.PlanWithoutSteps | src/intelligence/workflow_generator.py:8 | no steps give an empty plan |
| WorkflowGenerator.PlanRejectsNonDictStep | src/intelligence/workflow_generator.py:8-9 | a step that is not a dictionary makes the generator raise |
| WorkflowGenerator.PlanStepLoads | src/intelligence/workflow_generator.py:11-18 | the executor loads a plan entry as the intended step |
| WorkflowGenerator.PlanLoads | src/intelligence/workflow_generator.py:6-20 | a plan written out and loaded by the executor gives exactly the intended steps |
| WorkflowGenerator.PlannedStepRuns | src/intelligence/workflow_generator.py:13-16 | each planned step gets two attempts; a truthy non-string action loads, then fails whatever the desktop does |
| Pipeline.TimerLifecycle | src/processing/pipeline.py:72-93 | start is idempotent and a no-op when active; stop is a no-op when inactive; stop after start leaves the timer inactive |
| Pipeline.DefaultInterval | src/processing/pipeline.py:79 | with no settings the interval is 60000 ms |
| Pipeline.AppendFreshId | src/processing/pipeline.py:108-117 | adding a row with the next id keeps ids distinct |
| Pipeline.Window | src/processing/pipeline.py:212-216 | the last ten (or fewer) indices, last first |
| Pipeline.RecentLive | src/processing/pipeline.py:212-216 | the analysis window holds min(10, live) live captures |
| Pipeline.RecentNewestLive | src/processing/pipeline.py:212-216 | the window is newest first and no live capture left out is newer than one taken in |
| Pipeline.Collect | src/processing/pipeline.py:218-219 | at most one value per capture of the window |
| Pipeline.CollectPicks | src/processing/pipeline.py:218-219 | a capture of the kind with metadata contributes its value |
| Pipeline.CollectNothing | src/processing/pipeline.py:218-229 | without metadata of the kind nothing is collected |
| Pipeline.CollectSkips | src/processing/pipeline.py:218-219 | a capture of the other kind contributes nothing |
| Pipeline.AudioRowAnalysed | src/processing/pipeline.py:114 | a stored transcript is read back by the analysis and adds no screen |
| Pipeline.ScreenRowAnalysed | src/processing/pipeline.py:164-169 | stored OCR items are read back by the analysis and add no transcript |
| Pipeline.AllStrings | src/intelligence/llm_interface.py:67 | the transcripts as strings, present iff all are strings |
| Pipeline.StoredExactly | src/processing/pipeline.py:235-255 | a row is stored iff the reply is repetitive, its summary is neither "" nor the parse fallback, its name is not null and new, and the commit succeeds; the row keeps the whole reply |
| Pipeline.FallbacksNeverStored | src/processing/pipeline.py:235 | the model's default and fallback results are never stored |
| Pipeline.AnalysisNeverStores | src/processing/pipeline.py:229-255 | as written, whatever the captures and the model, no workflow is stored |
| Pipeline.StoredKeepsNamesUnique | src/processing/pipeline.py:240-255 | storing keeps workflow names unique |
| Pipeline.NoDataNoCall | src/processing/pipeline.py:229 | without screens or transcripts the model is not called |
| Pipeline.ProcessingPipeline.constructor | src/processing/pipeline.py:32-67 | the timer is inactive and nothing was emitted |
| Pipeline.ProcessingPipeline.Start | src/processing/pipeline.py:72-80 | the timer starts with the configured interval unless already active |
| Pipeline.ProcessingPipeline.Stop | src/processing/pipeline.py:86-93 | the timer stops if active |
| Pipeline.ProcessingPipeline.ProcessAudio | src/processing/pipeline.py:96-134 | a missing file changes nothing; otherwise an audio row with the size and transcript is added on commit, and the file is unlinked whatever the database did |
| Pipeline.ProcessingPipeline.ProcessVideo | src/processing/pipeline.py:137-194 | a missing or unopenable video changes nothing; a first frame gives a screen row with its OCR items on commit; a video that was opened is unlinked even without a frame |
| Pipeline.ProcessingPipeline.StoreWorkflow | src/processing/pipeline.py:233-255 | the stored row is added and the reply emitted only after the commit; nothing else changes |
| Pipeline.ProcessingPipeline.RunAnalysis | src/processing/pipeline.py:199-265 | analyse the recent captures, then store and emit what is worth storing; as written the workflow table and the emitted values never change |

## Left out

- The helpers `sha256_file`, `ensure_dirs`, `load_json`, `save_json`, `configure_logging`, `tesseract_installed` and `platform_name` of src/utils.py are not modelled: they are file-system and OS I/O.
- Executor.WorkflowExecutor.ExecuteWorkflow: the elapsed time in `ExecutionResult` and the sleeps between steps and retries are not modelled, because the clock is not part of the model.
- Executor.FailureMessage: an action type that is not a string is rendered by a `render` parameter standing for Python's `str()`, which is not modelled.
- Executor.Attempt: whether a pyautogui call succeeds, or whether a string target parses as a number, is decided by the `Device` parameter.
- The int16 conversion of audio samples and the file name of an audio segment are not modelled: the names come from the clock.
- Queue blocking and thread interleavings are not modelled. A capture loop is given the items it will dequeue and the index at which `stop()` cleared the running flag. When those items (or the screen loop's ticks) run out while the flag is still set, the model's loop ends; the source would block on the queue or keep polling.
- ScreenCapture.ResizeFits: the model rounds the scaled side down (floor of other * cap / longer). Python's float arithmetic and `int()` truncation can differ by one for some sizes.
- Float pacing of the capture loops, QTimer scheduling and the polling loops of `verify_window_change`, `verify_element_appeared` and `wait_for_element` are not modelled: they are timing. Their outcome is an observation parameter.
- Strings.Lower and Strings.Strip cover ASCII only: `lower` maps A-Z, and `strip` removes the ASCII whitespace Python removes. Python also folds and strips non-ASCII characters.
- `calculate_similarity` (TF-IDF and cosine over floats) is the `sim` parameter.
- PatternRecognition.DetectRepetitivePatterns: `sim` is total, so the model returns patterns where `detect_repetitive_patterns` raises, since pattern_recognition.py:39 has no handler. That happens when a compared workflow's signature raises (a step that is not a dictionary, an action that is not a string; see `SignatureRejectsNonStringAction`), and when no compared signature holds a word of two or more characters, so TF-IDF has an empty vocabulary (two `{}` workflows, each with the signature " |  | ").
- Storage.SortByTime: ties in `ORDER BY timestamp` are broken by table order (a stable sort), and the analysis window reverses it. The database does not promise any tie order.
- The `deleted` column is not declared in src/storage/database.py. The model gives every capture and event row that flag, as cleanup.py and pipeline.py use it. As shipped, those queries would fail.
- Failures of individual database queries are not modelled separately: each database step is one `commitOk` flag, and a failed commit rolls back.
- Pipeline.AnalysisIntervalMs: a configured interval that is not an integer (a float, say) gives no interval, and the timer is then left as it was. Qt's handling of such a value is not modelled.
- The workflow `name` column's length limit (String(128)) is not enforced.
- Language-model generation (including tokenizer truncation), Tesseract with `_preprocess`, speech-to-text engines, OpenCV decoding and `json.loads` are oracles given as parameters. A failed `Image.open` counts as a raised Tesseract run.
- llm_interface.py:67 puts a backslash inside an f-string expression. Python before 3.12 rejects that as a syntax error; the model follows the 3.12 meaning.
- src/ui, src/main.py, src/automation/computer_use.py, src/capture/event_tracker.py and src/storage/file_manager.py are not part of this model. They are UI, thread wiring, pyautogui wrappers and OS hooks.
- The values a pipeline emits are held as JSON values; Qt signal delivery is not modelled.

## Findings

| source | as written | input that shows it | evidently intended | confidence | as-written member | corrected member |
|---|---|---|---|---|---|---|
| src/capture/audio_capture.py:140 | the VAD scan uses `range(0, len(mono) - spf, spf)`, which stops one frame short | a 480-sample chunk at 16000 Hz (exactly one 30 ms frame) that the VAD calls speech is reported as no voice | scan every full frame, `range(0, len(mono) - spf + 1, spf)` | not executed | AudioCapture.ContainsVoiceMissesLastFrame | AudioCapture.ContainsVoiceExamined |
| src/intelligence/llm_interface.py:47 | `torch` is imported inside `_init` only (line 28), so `with torch.no_grad():` raises NameError and the handler at line 59 returns the default | a loaded model whose reply after the prompt parses to `{"is_repetitive": true, "workflow_summary": "x"}` still yields the default, so `run_analysis` never stores a workflow | import `torch` at module level (or keep it on the instance) so the reply reaches `_safe_json` | not executed | LlmInterface.TorchNameErrorDiscardsReply | LlmInterface.AnalyzeWorkflowIntendedReply |
| src/intelligence/llm_interface.py:79 | the fence test is `startswith("```)")`, with a stray parenthesis inside the literal | the reply "```\n{}\n```" keeps its fences, fails to parse and becomes the fallback | test `startswith("```")` and strip the fences | not executed | LlmInterface.FenceCheckMissesFence | LlmInterface.SafeJsonUnfences |
