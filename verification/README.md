# Emotion analysis app: the decision logic, in Dafny

This project models the rule-based core of a multimodal emotion analysis
application. The Flask backend judges text, uploaded video and webcam frames.
The React frontend validates input, polls the backend for model readiness,
aggregates a webcam session and lists past analyses. The machine-learning
parts are abstracted to their outputs: the sentiment model's argmax, FER's
detected faces and Whisper's transcript. What remains is modelled as pure
functions over immutable datatypes, and the properties the code promises are
proved about them.

Modules, one per source component:

| module | file | models |
|---|---|---|
| `Common` | common.dfy | Option, substring search, Python `strip`/JS `trim`, ASCII lower-casing, `list[-n:]`, decimal rendering, UTF-16 length |
| `Scores` | scores.dfy | ordered score dictionaries and Python's `max(d, key=d.get)` (first maximum) |
| `Utils` | utils.dfy | backend/modules/utils.py: extension whitelists, upload validation order, `error_response`, label translation, `safe_filename`, `traditional_to_simplified` |
| `TextSentiment` | text_sentiment.dfy | backend/modules/text_analysis.py: keyword counts, the class decision tree, the stand-in classifier, the request handler |
| `VideoRules` | video_rules.dfy | backend/modules/video_analysis.py: frame sampling, the face result, the speech track, `combine_results`, the upload handler |
| `ModelLoader` | model_loader.dfy | backend/modules/models.py: the `load_model` flag machine and `get_model_status` |
| `Monitoring` | monitoring.dfy | backend/modules/monitoring.py: the bounded request log, counters, throttled system samples, summary and health |
| `CameraFrame` | camera_frame.dfy | backend/modules/camera_analysis.py: data-URL stripping, frame outcome, the 400 mapping |
| `CameraSession` | camera_session.dfy | frontend-mui/src/components/CameraInput.js: majority vote, category, history slice, gate, reply classification, face box |
| `TextInput` | text_input.dfy | frontend-mui/src/components/TextInput.js |
| `VideoUpload` | video_upload.dfy | frontend-mui/src/components/VideoInput.new.js |
| `Readiness` | readiness.dfy | frontend-mui/src/App.js: status polling, the loading timeout, the retry button, the status chip |
| `HistoryView` | history_view.dfy | frontend-mui/src/components/HistoryRecord.js |

Modelling conventions:

- **Numbers.**
  - Confidences are integer percents: 70, 80, 90 and 50.
  - Health and CPU metrics are `real`.
  - Backend times are real seconds; client times are integer milliseconds.
- **Whitespace and case.**
  - Python `strip` and JS `trim` are modelled with one whitespace set: the six ASCII spaces, U+00A0 and U+3000. Python also strips U+001C..U+001F and U+0085, and JS also trims U+FEFF and other Unicode spaces; those are not in the model's set.
  - Lower-casing is ASCII only.
- **Falsy values.** A JavaScript field that is absent or falsy is `None`, or the empty string where the field is a string.
- **Exceptions.** Python exception texts that the model produces are constants. Examples are `max() arg is an empty sequence` and `name 'model' is not defined`.
- **Findings below.** Where the code has a bug, the model has both halves:
  - one member that models the code as written, such as `TextSentiment.AnalyzeEmotion` with `Decide`;
  - one corrected member beside it, such as `TextSentiment.AnalyzeEmotionIntended` with `DecideIntended`.

  The corrected members are used by the other corrected members (`VideoRules.SpeechAnalysisIntended` analyses a transcript with `AnalyzeEmotionIntended`). Lemmas relate each pair.

## Model

| member | source | states |
|---|---|---|
| Common.Trim | backend/modules/text_analysis.py:168 | Python `strip` / JS `trim`: no space at either end of the result, the removed ends are whitespace, and the result is empty iff the text is blank |
| Common.LeadingSpaces | frontend-mui/src/components/TextInput.js:15 | the text's first characters up to that count are whitespace and the next one is not |
| Common.TrailingSpaces | frontend-mui/src/components/TextInput.js:15 | the text's last characters up to that count are whitespace and the one before is not |
| Common.TrimIsSlice | frontend-mui/src/components/TextInput.js:15-57 | the trimmed text is a contiguous slice of the input with only whitespace removed around it |
| Common.TrimIdempotent | frontend-mui/src/components/TextInput.js:15-57 | trimming a trimmed text changes nothing |
| Common.ToLower | backend/modules/utils.py:91 | same length, each character lower-cased |
| Common.LastIndexOf | backend/modules/utils.py:91 | none iff the character is absent; otherwise a position holding it with none after it |
| Common.FirstIndexOf | backend/modules/camera_analysis.py:50-51 | none iff the character is absent; otherwise a position holding it with none before it |
| Common.KeepLast | backend/modules/monitoring.py:80-81 | `list[-n:]`: the last min(n, length) elements, as a suffix |
| Common.NatToString | frontend-mui/src/components/TextInput.js:67 | decimal digits that read back as the number, with no leading zero except for 0 itself |
| Common.Utf16Length | frontend-mui/src/components/TextInput.js:21 | JS `length`: between one and two code units per character |
| Scores.DominantIndex | backend/modules/video_analysis.py:121 | Python's `max(d, key=d.get)`: an entry with the top score and every earlier entry strictly lower |
| Scores.Add | backend/modules/video_analysis.py:112 | `d[k] = d.get(k, 0) + s` on the keys: the key set gains the name, and a name not yet present is appended at the end with score s |
| Scores.AddScore | backend/modules/video_analysis.py:112 | after the update the name's score has grown by s and every other name's score is unchanged, a missing name reading as 0 |
| Scores.AddKeepsPlaces | backend/modules/video_analysis.py:112 | every existing entry keeps its name and its place in insertion order |
| Scores.AddLength | backend/modules/video_analysis.py:112 | the dict grows by one entry exactly when the name is new |
| Scores.AddKeepsDistinct | backend/modules/video_analysis.py:112 | adding into a dict-like table keeps every name unique |
| Scores.Merge | backend/modules/video_analysis.py:111-112 | every name's score in the merge is its score in the accumulator plus its score in the frame; the key set is the union; unique names stay unique |
| Scores.Totals | backend/modules/video_analysis.py:110-112 | each label appears once and carries its sum over all frames; a label is totalled iff it appears in some frame's table |
| Scores.ScoreOfDistinct | backend/modules/video_analysis.py:110-112 | in a table with unique names, a listed name's score is its single entry's |
| Monitoring.Min | backend/modules/monitoring.py:142 | `min`: an element no larger than any other |
| Monitoring.Max | backend/modules/monitoring.py:143 | `max`: an element no smaller than any other |
| Monitoring.Durations | backend/modules/monitoring.py:133 | the durations of the log, position by position |
| Monitoring.RecordAllLast | backend/modules/monitoring.py:70-81 | the last record of a run appends its entry to the log left by the others and keeps the newest 100 |
| Utils.ErrorResponse | backend/modules/utils.py:48-54 | always a failure with the given status, 400 by default; status 500 and above hides the message behind "服务器内部错误", lower statuses echo it |
| Utils.Extension | backend/modules/utils.py:91 | none exactly when the name has no dot; otherwise the lower-cased text after the last dot |
| Utils.AllowedFile | backend/modules/utils.py:89-91 | true iff there is a last dot and the lower-cased text after it is wav, mp3 or flac |
| Utils.AllowedVideoFile | backend/modules/utils.py:94-96 | true iff the lower-cased final extension is mp4, avi, mov or mkv |
| Utils.LastDotUnique | backend/modules/utils.py:91 | the last dot is unique, so the extension `rsplit` picks is well defined |
| Utils.AudioAndVideoExclusive | backend/modules/utils.py:30-31 | no file name passes both the audio and the video check |
| Utils.ExtensionAt | backend/modules/utils.py:89-96 | with the last dot known, each check is membership of the lower-cased suffix |
| Utils.AllowedFileIgnoresCase | backend/modules/utils.py:91 | "test.mp3" and "a.MP3" are accepted |
| Utils.AllowedFileNeedsFinalExtension | backend/modules/utils.py:91 | "a.mp3.txt" and "test" are refused: only the final extension counts and a dot is needed |
| Utils.AllowedVideoFileIgnoresCase | backend/modules/utils.py:96 | "clip.MOV" is a video |
| Utils.AllowedVideoFileRefusesAudio | backend/modules/utils.py:94-96 | "test.mp3" is not a video |
| Utils.CheckFileSize | backend/modules/utils.py:57-62 | the limit itself is allowed |
| Utils.ValidateAudioFile | backend/modules/utils.py:99-114 | extension, then size up to 16 MiB, then sniffed type; accepted iff all pass; the type, size and content-type mismatch messages, each for the first check that fails; a sniffing exception escapes |
| Utils.ValidateVideoFile | backend/modules/utils.py:117-149 | the same order with the video lists and 32 MiB, with the type, size, content-type mismatch and unverifiable-type messages; a sniffing exception becomes a refusal, never an escape |
| Utils.VideoSizeBoundary | backend/modules/utils.py:132 | exactly 32 MiB passes, one byte more is refused for its size |
| Utils.EmotionToChinese | backend/modules/utils.py:152-163 | the lower-cased label's translation among the seven; an unknown label comes back unchanged, not lower-cased |
| Utils.EmotionToChineseExamples | backend/modules/utils.py:152-163 | happy→快乐, sad→悲伤, angry→愤怒, neutral→中性, "HAPPY"→快乐, "Unknown" stays "Unknown" |
| Utils.SplitExt | backend/modules/utils.py:185 | stem and extension concatenate back to the name; the extension is empty or one dot with no further dot or slash |
| Utils.SplitExtExamples | backend/modules/utils.py:185 | "test.mp3" splits at the dot; ".bashrc" and "archive" have no extension |
| Utils.SafeFilename | backend/modules/utils.py:173-186 | the 8-character prefix alone when the secured name is empty, otherwise prefix + "_" + the secured name |
| Utils.SafeFilenameExamples | backend/modules/utils.py:173-186 | "test.mp3" keeps its name after the prefix; an empty name gives 8 characters |
| Utils.TraditionalToSimplified | backend/modules/utils.py:189-198 | empty text and a missing converter leave the text unchanged; otherwise the converter's output |
| TextSentiment.Hits | backend/modules/text_analysis.py:91-93 | a keyword count never exceeds the list length |
| TextSentiment.HitsCountsPositions | backend/modules/text_analysis.py:91-93 | the count is the number of list positions whose word occurs in the text, so duplicates count separately |
| TextSentiment.HitsAtLeastOne | backend/modules/text_analysis.py:91-93 | one occurring entry gives a count of at least 1 |
| TextSentiment.HitsAtLeastTwo | backend/modules/text_analysis.py:91-93 | two occurring positions give a count of at least 2 |
| TextSentiment.CountKeywords | backend/modules/text_analysis.py:91-93 | each of the three counts lies between 0 and its list length |
| TextSentiment.Decide | backend/modules/text_analysis.py:98-123 | the decision tree as written: anger rule gives class 0; more sad than positive gives 1 or 2 (悲伤); more positive gives 3 or 4 (快乐); a tie keeps the argmax, lowered to 2 for short text (中性) |
| TextSentiment.DecideIntended | backend/modules/text_analysis.py:104-109 | the corrected sad branch: class 1 for a margin of one, 0 for more; otherwise the same as the code |
| TextSentiment.SadTextRatedNeutral | backend/modules/text_analysis.py:104-109 | any text containing 悲伤 without anger or positive words is rated 中性 by the code as written |
| TextSentiment.IntendedSadnessIsNegative | backend/modules/text_analysis.py:104-109 | under the corrected rule, sadness is always class 0 or 1, i.e. negative |
| TextSentiment.IntendedRuleIsSymmetric | backend/modules/text_analysis.py:104-115 | swapping sad and positive counts mirrors the corrected class around 2 |
| TextSentiment.IntendedDiffersOnlyOnStrongSadness | backend/modules/text_analysis.py:104-109 | the corrected rule differs from the code exactly when the anger rule is off and sadness leads by two or more |
| TextSentiment.DisgustIsAlwaysAnger | backend/modules/text_analysis.py:59-67 | a text containing 厌恶 hits that entry more than once and is always class 0, 愤怒 |
| TextSentiment.MockClass | backend/modules/text_analysis.py:205-217 | the stand-in class is 1, 2 or 4 (never 0 or 3): 1 iff negative words outnumber positive, 4 iff the reverse |
| TextSentiment.AnalyzeEmotion | backend/modules/text_analysis.py:22-161 | as written: a failed model initialisation gives the stand-in; a ready model gives `Decide`'s class and emotion type with the counts; a crash gives the prefixed error; the label is the class's label |
| TextSentiment.AnalyzeEmotionIntended | backend/modules/text_analysis.py:98-123 | the same with the corrected sad branch: a ready model gives `DecideIntended`'s class; the other engines as written |
| TextSentiment.AnalysesDifferOnlyOnStrongSadness | backend/modules/text_analysis.py:104-109 | the two analyses differ exactly for a predicted text where the anger rule is off and sadness leads by two or more |
| TextSentiment.SadTextReportedNeutral | backend/modules/text_analysis.py:104-109 | as written, a text containing 悲伤 without anger or positive words is reported 中性 with emotion type 悲伤; corrected, it is 非常消极 |
| TextSentiment.HandleTextRequest | backend/modules/text_analysis.py:164-185 | blank text is refused with "文本不能为空" before analysis; a failed analysis gets the generic message; otherwise the reply is `analyze_emotion`'s result for that text |
| VideoRules.SampleIndices | backend/modules/video_analysis.py:61-71 | up to 20 frames: every index; more: the 20 indices ⌊i·total/20⌋ |
| VideoRules.DivisionStep | backend/modules/video_analysis.py:69-71 | with more than 20 frames, consecutive sample indices strictly increase |
| VideoRules.StrictlyIncreasing | backend/modules/video_analysis.py:69-71 | any two sample positions are in order |
| VideoRules.SampleIndicesAreFrames | backend/modules/video_analysis.py:61-71 | at most 20 indices, each a real frame, strictly increasing |
| VideoRules.SampleInRange | backend/modules/video_analysis.py:69-71 | with more than 20 frames, each of the 20 sample indices is a frame of the video |
| VideoRules.CollectEmotions | backend/modules/video_analysis.py:76-95 | no detector collects nothing; a table is collected iff a sampled frame was read and showed a face with it |
| VideoRules.FacePositions | backend/modules/video_analysis.py:76-91 | the sampled positions whose frame showed a face: increasing, and every such position is listed |
| VideoRules.CollectEmotionsFollowsFaces | backend/modules/video_analysis.py:76-91 | with the detector loaded, one table per face frame, the first face's, in sampling order |
| VideoRules.FaceAnalysis | backend/modules/video_analysis.py:101-122 | no emotions gives the empty "unknown"/"未知" result; `max` fails iff every table is empty; otherwise totals with a first-maximal dominant and its translation |
| VideoRules.DominantHasLargestTotal | backend/modules/video_analysis.py:110-121 | the dominant label's sum over the frames is at least every other label's |
| VideoRules.SpeechAnalysis | backend/modules/video_analysis.py:131-196 | as written the speech track always fails: no Whisper, no audio track, a recognition error or the audio exception each give their message |
| VideoRules.RecognisedSpeechAlwaysFails | backend/modules/video_analysis.py:171-196 | a successful transcript still ends in the NameError message |
| VideoRules.SpeechAnalysisIntended | backend/modules/video_analysis.py:168-186 | with the text model reachable, a transcript gives success with its corrected analysis or the model's error; other paths as written |
| VideoRules.SentimentToEmotion | backend/modules/video_analysis.py:249-256 | classes map to angry, sad, neutral, happy; 3 and 4 are happy; an unknown class is neutral |
| VideoRules.CombineResults | backend/modules/video_analysis.py:235-303 | no class: face at 70 (defaults unknown/未知); no face: text at 80; both agreeing: combined at 90; otherwise face_priority at 70 with the text emotion attached |
| VideoRules.ProcessVideo | backend/modules/video_analysis.py:28-232 | a result or an error, never both; the empty-`max` error exactly when the sampled frames' face analysis fails; otherwise that face result, the speech result, and the combination of the face with the speech dict, which has no `sentiment_class` |
| VideoRules.CombinedIsAlwaysFace | backend/modules/video_analysis.py:223-245 | as written, the combined analysis always has source "face" at 70 |
| VideoRules.ProcessVideoIntended | backend/modules/video_analysis.py:223 | the same outcome shape and face result, failing exactly when the code fails, but combining the face with the speech track's emotion analysis |
| VideoRules.IntendedCombinesTextAndFace | backend/modules/video_analysis.py:235-294 | with a transcript analysed, the combined source is never "face" |
| VideoRules.NoDetectorMeansUnknownFace | backend/modules/video_analysis.py:54-107 | without a detector the video succeeds with the unknown face result |
| VideoRules.HandleVideoUpload | backend/modules/video_analysis.py:306-334 | both set: partial success with a warning; an error alone: a 400 error reply; otherwise a plain success |
| VideoRules.UploadNeverPartial | backend/modules/video_analysis.py:313-321 | neither version of `process_video` can reach the partial branch |
| ModelLoader.InProgress | backend/modules/models.py:62 | while an attempted load runs, loading is set and loaded is not |
| ModelLoader.LoadModel | backend/modules/models.py:35-112 | force_success marks loaded without loading; a fresh or in-progress model is left alone (a stale one unloaded); an attempt ends not loading, raises iff a load fails, and is loaded iff it did not raise |
| ModelLoader.LoadKeepsHandlesBehindLoaded | backend/modules/models.py:62-112 | without force_success, loaded implies all three handles are set |
| ModelLoader.ForceSuccessSkipsLoading | backend/modules/models.py:44-49 | force_success reports loaded with no handle set |
| ModelLoader.StaleReloadFailureUnloads | backend/modules/models.py:53-110 | a stale model whose reload fails ends unloaded and the call raises |
| ModelLoader.LoadIsIdempotentWithinInterval | backend/modules/models.py:53-60 | after a successful load, a call within the interval changes nothing |
| ModelLoader.LoadEndsNotLoading | backend/modules/models.py:104-112 | sequential calls always leave loading false |
| ModelLoader.GetModelStatus | backend/modules/models.py:115-124 | the flags and time exactly as they stand; device cuda:0 iff CUDA is available, otherwise cpu |
| Monitoring.Fresh | backend/modules/monitoring.py:20-32 | the initial store is well formed with empty logs and zero counters |
| Monitoring.ResetStats | backend/modules/monitoring.py:207-217 | logs, counters and histories cleared; total and last update 0; start time now |
| Monitoring.RecordRequest | backend/modules/monitoring.py:70-83 | the endpoint's log gains the entry and keeps its newest 100 in order; other logs unchanged; total grows by exactly one |
| Monitoring.RecordError | backend/modules/monitoring.py:86-89 | only the named endpoint's error counter grows, by one |
| Monitoring.MonitorPerformance | backend/modules/monitoring.py:38-67 | records under the endpoint name (or the function's); success on return; failure plus an error count on a raise; the caller gets the call's own outcome back, the value returned or the exception re-raised |
| Monitoring.MonitorLeavesOthers | backend/modules/monitoring.py:38-67 | the wrapper changes no other endpoint's log or error count |
| Monitoring.MonitorLogsCall | backend/modules/monitoring.py:38-67 | whether or not the call raised, its entry joins its endpoint's log, which keeps the newest 100 |
| Monitoring.KeepLastSnoc | backend/modules/monitoring.py:78-81 | trimming after every append equals trimming once at the end |
| Monitoring.RecordAll | backend/modules/monitoring.py:83 | a run of records raises the total by the number of calls and leaves other endpoints alone |
| Monitoring.LogIsNewestHundred | backend/modules/monitoring.py:70-81 | after any run of records, an endpoint's log is the newest 100 of all its entries, in order |
| Monitoring.UpdateSystemStats | backend/modules/monitoring.py:92-116 | within 5 s of the last update nothing changes; otherwise samples are appended to histories of at most 60 entries |
| Monitoring.UpdateIsThrottled | backend/modules/monitoring.py:97-113 | a second update within 5 s of a successful one is a no-op |
| Monitoring.SuccessCount | backend/modules/monitoring.py:134 | the success count is at most the log length |
| Monitoring.SuccessCountIsFilter | backend/modules/monitoring.py:134 | it counts exactly the successful entries |
| Monitoring.AllSuccessful | backend/modules/monitoring.py:134-140 | the count equals the length iff every request succeeded |
| Monitoring.SummarizeEndpoint | backend/modules/monitoring.py:133-144 | totals and error count as recorded; the success count is the number of successful entries; the rate is count / total · 100, in [0, 100] and 100 iff all succeeded; the average is the mean duration; min and max are durations of the log bounding every other |
| Monitoring.GetPerformanceSummary | backend/modules/monitoring.py:119-157 | exactly the endpoints with non-empty logs, each the summary of its log and error count, so success_count ≤ total_requests; histories read after the throttled update |
| Monitoring.GetHealthStatus | backend/modules/monitoring.py:160-204 | healthy iff there is no warning; exactly one warning per breached limit (CPU 80, memory 85, disk 90) and no other; a failed probe gives the one system-info warning |
| Monitoring.HealthWarningOrder | backend/modules/monitoring.py:172-182 | the warnings come in the order CPU, memory, disk with no kind twice; with every limit breached they are exactly those three |
| CameraFrame.StripDataUrl | backend/modules/camera_analysis.py:50-51 | no comma leaves the text alone; otherwise the field between the first comma and the next comma or the end |
| CameraFrame.StripDataUrlRoundTrip | backend/modules/camera_analysis.py:50-51 | "header,payload" gives back the payload |
| CameraFrame.StripDataUrlIdempotent | backend/modules/camera_analysis.py:50-51 | stripping twice equals stripping once |
| CameraFrame.MockFrame | backend/modules/camera_analysis.py:135-179 | the stand-in is marked mock and dominated by happy (快乐) |
| CameraFrame.ProcessCameraFrame | backend/modules/camera_analysis.py:26-132 | no detector gives the stand-in; a decoding failure and a crash give their prefixed messages; no face gives the no-face error; a face gives a first-maximal dominant with its translation and box |
| CameraFrame.HandleCameraFrame | backend/modules/camera_analysis.py:181-199 | success iff a result; no face becomes 400 "未检测到人脸"; other errors a 400 with their message |
| CameraFrame.FrameRequestOutcomes | backend/modules/camera_analysis.py:181-199 | a frame request fails only with 400, and a real success needs a decoded image with a face |
| CameraSession.ChineseName | frontend-mui/src/components/CameraInput.js:478-490 | the seven FER labels' names (happy 高兴, neutral 平静); anything else is 未知 |
| CameraSession.Category | frontend-mui/src/components/CameraInput.js:512-523 | angry, disgust, fear, sad are 消极; happy is 积极; everything else 中性 |
| CameraSession.Dominants | frontend-mui/src/components/CameraInput.js:495-498 | the frames' dominant labels in order |
| CameraSession.Count | frontend-mui/src/components/CameraInput.js:495-498 | a tally is at most the number of frames |
| CameraSession.CountIsMultiplicity | frontend-mui/src/components/CameraInput.js:495-498 | the tally is the label's multiplicity among the frames |
| CameraSession.Keys | frontend-mui/src/components/CameraInput.js:500 | distinct keys, exactly the labels seen |
| CameraSession.KeysInFirstAppearanceOrder | frontend-mui/src/components/CameraInput.js:500 | `Object.keys` order: each key appears in the history before any later key has appeared |
| CameraSession.Reduce | frontend-mui/src/components/CameraInput.js:500 | the winner is the start or a key and its tally bounds every key's |
| CameraSession.ReduceKeepsAcc | frontend-mui/src/components/CameraInput.js:500 | the start survives only if it beats every key strictly |
| CameraSession.ReduceIsLastBest | frontend-mui/src/components/CameraInput.js:500 | a key that wins is the last one with the largest tally |
| CameraSession.Aggregate | frontend-mui/src/components/CameraInput.js:493-550 | the three result fields are the dominant's category; history length and the last five frames; the dominant has the largest tally |
| CameraSession.AggregateIsLastBest | frontend-mui/src/components/CameraInput.js:500 | the aggregate dominant is the last key, in order of first appearance, with the largest count |
| CameraSession.WinnerIsLastBest | frontend-mui/src/components/CameraInput.js:500 | the same for the reduction started from the first key |
| CameraSession.TieGoesToLaterKey | frontend-mui/src/components/CameraInput.js:500 | one sad then one happy frame gives happy, 积极 |
| CameraSession.StopCamera | frontend-mui/src/components/CameraInput.js:119-127 | an aggregate is passed on iff frames were recorded |
| CameraSession.Gate | frontend-mui/src/components/CameraInput.js:233-266 | a frame is sent iff video and canvas exist, none is in flight, the video is ready, the interval has passed and the size is positive; the time updates only then |
| CameraSession.GateSpacesFrames | frontend-mui/src/components/CameraInput.js:249-266 | fed the current state, the gate sends two frames at least one interval apart |
| CameraSession.TimerTick | frontend-mui/src/components/CameraInput.js:171-184 | a tick sends a frame iff video and canvas exist, the state read shows no request in flight, the video is ready, the interval has passed since the state's last time and the size is positive |
| CameraSession.StaleTickSendsDuringRequest | frontend-mui/src/components/CameraInput.js:171-184 | as written, ticks read the state of the render that started the timer, so after one sends, every later tick sends too, even while the current state shows the request in flight |
| CameraSession.LiveTicksWaitForReply | frontend-mui/src/components/CameraInput.js:233-266 | reading the current state, no tick sends while a request is in flight or within one interval of the last send |
| CameraSession.ClassifyReply | frontend-mui/src/components/CameraInput.js:306-434 | the client's checks in order; a JSON 400 is silent; a frame is recorded iff an OK JSON reply parses to a success with dominant and emotions |
| CameraSession.Record | frontend-mui/src/components/CameraInput.js:416-420 | only a recognised frame joins the history, at its end |
| CameraSession.RecordBumpsOneTally | frontend-mui/src/components/CameraInput.js:416-498 | a recognised frame raises its own tally by one and no other |
| CameraSession.NormaliseBox | frontend-mui/src/components/CameraInput.js:454-463 | an object box reads its four fields; an array box its first four elements |
| CameraSession.BoxShapesAgree | frontend-mui/src/components/CameraInput.js:454-463 | [x, y, w, h] and {x, y, width, height} give the same rectangle |
| TextInput.ValidateInput | frontend-mui/src/components/TextInput.js:14-33 | valid iff non-blank, at most 5000 UTF-16 units and with a letter, digit or ideograph; the first failing check's message |
| TextInput.LengthCountsSpaces | frontend-mui/src/components/TextInput.js:21-24 | the length counts the untrimmed text: whitespace padding past 5000 units makes a text too long |
| TextInput.BlankIsOneUnitEach | frontend-mui/src/components/TextInput.js:21 | whitespace counts one UTF-16 unit per character |
| TextInput.Utf16Append | frontend-mui/src/components/TextInput.js:21 | UTF-16 length adds over concatenation |
| TextInput.ButtonEnabled | frontend-mui/src/components/TextInput.js:158 | enabled iff the model is loaded and the text is not blank |
| TextInput.CaughtMessage | frontend-mui/src/components/TextInput.js:95-99 | the network message iff the error mentions NetworkError or Failed to fetch; otherwise the prefixed message |
| TextInput.AnalyzeText | frontend-mui/src/components/TextInput.js:36-100 | invalid input is not sent; the sent text is trimmed; a delivered result iff the reply is a JSON success, and it carries the untrimmed input; "分析出错: " plus the error or 未知错误; the timeout message on abort |
| TextInput.SentTextIsNotBlank | frontend-mui/src/components/TextInput.js:38-57 | the text the form sends is never blank |
| TextInput.BackendAcceptsNonBlank | backend/modules/text_analysis.py:168-169 | the backend refuses as empty only blank text |
| TextInput.SentTextPassesBackendCheck | frontend-mui/src/components/TextInput.js:57 | the backend never answers the form's text with "文本不能为空" |
| VideoUpload.ClientChecksMatchBackend | frontend-mui/src/components/VideoInput.new.js:30-38 | the client's four types lie in the backend's list (which adds video/avi) and the size limits are equal |
| VideoUpload.SizeText | frontend-mui/src/components/VideoInput.new.js:40 | `toFixed(2)` of the size in MB: digits, a dot and two digits that read back as the rounded hundredths, with no leading zero in the whole part |
| VideoUpload.SizeTextOfWholeMiB | frontend-mui/src/components/VideoInput.new.js:40 | n MiB is shown as n followed by ".00" |
| VideoUpload.HundredthsOfWholeMiB | frontend-mui/src/components/VideoInput.new.js:40 | n MiB is exactly 100·n hundredths |
| VideoUpload.TwoDigitsValue | frontend-mui/src/components/VideoInput.new.js:40 | the two-digit text reads back as its number |
| VideoUpload.Hundredths | frontend-mui/src/components/VideoInput.new.js:40 | the nearest number of hundredths of a MiB, a tie going up |
| VideoUpload.TwoDigits | frontend-mui/src/components/VideoInput.new.js:40 | two decimal digits whose value is the number |
| VideoUpload.ChooseFile | frontend-mui/src/components/VideoInput.new.js:25-48 | no file: nothing; type checked before size; a refusal sets its message and keeps the earlier file; an accepted file replaces it and clears the error |
| VideoUpload.JustOverLimitReadsAsLimit | frontend-mui/src/components/VideoInput.new.js:38-42 | a file one byte over the limit is refused with a message showing 32.00MB |
| VideoUpload.ChosenFilePassesBackend | frontend-mui/src/components/VideoInput.new.js:30-44 | an accepted file with a video name and agreeing sniffed type passes the backend's validation |
| VideoUpload.UploadEnabled | frontend-mui/src/components/VideoInput.new.js:229 | enabled iff a file is chosen, nothing is uploading and the model is loaded |
| VideoUpload.Upload | frontend-mui/src/components/VideoInput.new.js:53-130 | the no-file error first, then not-loaded; a started upload ends not uploading; only a 200 JSON success sets the result, changing nothing else; every other ending keeps the result and sets an error: the upload error, the unreadable-reply message, the body's error or "视频分析失败" on a 200, and the body's error or "服务器错误: <status>" (with the connection hint when the reply is not JSON) otherwise |
| VideoUpload.ReplyBody | backend/modules/utils.py:48-54 | a backend reply's JSON: success iff the reply succeeded; a failure carries its message |
| VideoUpload.ReplyStatus | backend/modules/utils.py:48-54 | a success is sent with 200, a failure with its status |
| VideoUpload.BackendReplyIsShown | frontend-mui/src/components/VideoInput.new.js:88-109 | whatever the backend answers, the upload ends, a success becomes the result and a refusal shows its message |
| Readiness.BackendBody | backend/app.py:77-82 | the status body nests the flags under `status` and has none at the top level |
| Readiness.CheckStatus | frontend-mui/src/App.js:99-159 | a parsed reply disarms the timeout; loaded wins and stops polling; loading arms the timeout and polls in 2 s; otherwise both flags drop and it polls in 2 s; a failure sets the ping's message and polls in 5 s |
| Readiness.TimeoutFires | frontend-mui/src/App.js:124-127 | an armed timeout shows the slow-load error and drops loading; a disarmed one does nothing |
| Readiness.RetryWith | frontend-mui/src/App.js:210-230 | the error is cleared; model_loaded or loaded marks loaded; loading marks loading; otherwise flags stay; a failure after a rejected ping shows the still-unreachable error |
| Readiness.RetryReadsOnlyTopLevel | frontend-mui/src/App.js:216-222 | as written, the retry's result does not depend on the body's `status` member, only on its top level |
| Readiness.RetryIntendedReadsOnlyStatus | frontend-mui/src/App.js:113-118 | corrected, the retry depends only on the `status` member, and when that reports loaded it sets the flags as a poll of the same body does |
| Readiness.RetryIgnoresBackendStatus | frontend-mui/src/App.js:216-222 | as written, a retry answered by the backend only clears the error |
| Readiness.RetryMissesLoadedModel | frontend-mui/src/App.js:216-222 | a model the backend reports loaded is still unloaded in the client right after a retry |
| Readiness.RetryIntendedReflectsBackend | frontend-mui/src/App.js:216-222 | the corrected retry shows the backend's loaded or loading flag |
| Readiness.PollReflectsBackend | frontend-mui/src/App.js:113-135 | after a poll the client's loaded flag is the backend's, loading holds only while not loaded, and polling stops iff loaded |
| Readiness.StepsKeepConsistent | frontend-mui/src/App.js:106-135 | polls, the timeout and the as-written retry never set both flags and arm the timeout only while loading; the corrected retry keeps the flags apart |
| Readiness.IntendedRetryLeavesTimeoutArmed | frontend-mui/src/App.js:124-218 | the corrected retry can mark a model loaded while its timeout is armed, and the timer then reports a slow load |
| Readiness.StatusChip | frontend-mui/src/App.js:190 | neither flag: 模型加载中...; loading: 模型正在加载...; otherwise 模型已加载, shown as success iff loaded and not loading |
| Readiness.ChipFollowsBackend | frontend-mui/src/App.js:190 | after a poll the chip shows 模型已加载 iff the backend has the model loaded |
| HistoryView.Label | frontend-mui/src/components/HistoryRecord.js:188-197 | result when non-empty, otherwise combined_result |
| HistoryView.EmotionColour | frontend-mui/src/components/HistoryRecord.js:68-82 | one of the five colours |
| HistoryView.EmotionIcon | frontend-mui/src/components/HistoryRecord.js:50-65 | the neutral face iff the label is none of 非常积极, 积极, 消极, 非常消极 |
| HistoryView.IconsFollowSentimentClass | frontend-mui/src/components/HistoryRecord.js:50-65 | the five sentiment labels get the five faces from very dissatisfied (class 0) to very satisfied (class 4) |
| HistoryView.IconMatchesColour | frontend-mui/src/components/HistoryRecord.js:50-82 | the icon's tint always equals the label's colour |
| HistoryView.ColoursTellSentimentsApart | frontend-mui/src/components/HistoryRecord.js:68-82 | the five sentiment labels get five colours; any other label is grey like 中性 |
| HistoryView.ShowRow | frontend-mui/src/components/HistoryRecord.js:185-250 | label and its colour; 视频分析 iff video_emotion; the expression's Chinese name (未知 when undefined); the text sentiment |
| HistoryView.SessionItem | frontend-mui/src/components/CameraInput.js:526-548 | the record a camera session saves carries its result fields, dominant and neutral text result |
| HistoryView.SessionRowShowsCategory | frontend-mui/src/components/HistoryRecord.js:188-230 | a camera session is listed as a video analysis under its category, grey iff 中性, with the camera view's Chinese name |
| HistoryView.SessionRow | frontend-mui/src/components/HistoryRecord.js:188-230 | the same for any aggregate-shaped record |
| HistoryView.Toggle | frontend-mui/src/components/HistoryRecord.js:42-47 | the row's truthiness flips; every other key stays as it was |
| HistoryView.ToggleTwiceRestores | frontend-mui/src/components/HistoryRecord.js:42-47 | toggling twice shows every row as before |
| HistoryView.TogglesCommute | frontend-mui/src/components/HistoryRecord.js:42-47 | toggles of two rows commute |
| HistoryView.ShowChrome | frontend-mui/src/components/HistoryRecord.js:139-157 | the clear button iff the history is non-empty; the placeholder otherwise |
| HistoryView.Dialog | frontend-mui/src/components/HistoryRecord.js:118-131 | onClearHistory is called iff confirm is clicked in an open dialog; cancel closes it |
| HistoryView.Clears | frontend-mui/src/components/HistoryRecord.js:118-131 | a run of events clears at most once per event |
| HistoryView.ClearsNeedAsks | frontend-mui/src/components/HistoryRecord.js:118-131 | a run clears the history at most as often as the clear button was pressed (plus one if the dialog started open) |

## Left out

- **Machine learning.** The transformer model, Whisper, FER, torch and softmax are abstracted to their outputs: the argmax class, the recognised text and the detected faces. Image and audio decoding (base64, PIL, cv2, moviepy) becomes an outcome parameter.
- **Floating point.**
  - Score averages over frames and history.
  - Random stand-in scores and boxes.
  - Processing times and upload percentages.
  - The displayed numbers in health warnings.

  Face scores are integers, so the dominant pick is exact.
- **I/O and time.** The clock, psutil probes, libmagic sniffing, `secure_filename`, uuid and OpenCC are parameters.
- **Concurrency.**
  - The monitoring lock is modelled sequentially.
  - Overlapping timers in App.js and CameraInput.js are modelled one step at a time. A camera timer tick is modelled with the state it reads given as a parameter; the finding below shows that the state read is that of the render which started the timer.
  - The 30-second status interval is not modelled.
- **Browser APIs.** getUserMedia, canvas drawing, FileReader, XHR progress events and AbortController are left out; only their outcomes are modelled.
- **Exception handlers.** The outer `except` handlers that catch errors the modelled code cannot raise are left out. Examples are `handle_text_analysis_request`'s generic message and, in `combine_results`, any exception other than reading from a missing face result (that one is modelled as the "error" source).
- **Dead code.**
  - The second FER initialisation inside `process_camera_frame` repeats the first.
  - The `force_success` branch inside `load_model`'s `except` cannot be reached after the early return.
- **Module-level imports.** `process_video` reads `emotion_detector` and `whisper_model` as imported at module load. They are input flags here, whatever their value at run time.
- **JavaScript objects.** Prototype keys such as "constructor" in an object lookup, and the key order of integer-like object keys, are not modelled. Labels are assumed to be ordinary strings.
- **Flask.** The request size limit `MAX_CONTENT_LENGTH`, CORS and routing are not modelled. A 32 MiB file plus its multipart framing exceeds that limit, which the model does not show.
- **Unicode.** The whitespace set is limited to ASCII, U+00A0 and U+3000, and lower-casing is ASCII only.
- **Other files.** SpeechInput.js, VideoInput.js, ResultDisplay.js and EmotionTabs.js are not part of this model.
- VideoRules.FaceAnalysis: scores are summed rather than averaged. Dividing every sum by the same frame count does not change which key is first maximal.
- Monitoring.GetHealthStatus: a warning carries the measured value, not its one-decimal text.

## Findings

| source | as written | input that shows it | evidently intended | confidence | as-written member | corrected member |
|---|---|---|---|---|---|---|
| backend/modules/text_analysis.py:104-109 | `min(2, negative_count - positive_count)` gives class 2 (中性) once sad words lead by two or more; 悲伤 is listed twelve times, so any text containing it leads by at least twelve | "我很悲伤" gives sentiment 中性 with emotion type 悲伤 | class 1 for a lead of one and 0 for more, as the inline comment ("0或1") says, so sadness is rated negative | not executed | TextSentiment.SadTextRatedNeutral | TextSentiment.IntendedSadnessIsNegative |
| backend/modules/video_analysis.py:171 | `model` and `tokenizer` are not imported into the module, so the check raises NameError, which line 191 catches | any video whose audio is recognised without error | analyse the transcript with the text model and report success with the analysis | not executed | VideoRules.RecognisedSpeechAlwaysFails | VideoRules.SpeechAnalysisIntended |
| backend/modules/video_analysis.py:223 | `combine_results` receives the speech result, which never has `sentiment_class`, so the combined source is always "face" | any video, e.g. one whose face is sad and whose speech is analysed as negative | pass the speech track's emotion analysis so that the text and face results are combined | not executed | VideoRules.CombinedIsAlwaysFace | VideoRules.IntendedCombinesTextAndFace |
| frontend-mui/src/App.js:216-222 | the retry button reads `model_loaded`, `loaded` and `loading` at the top level, but the backend nests them under `status` (backend/app.py:82) | press retry while the backend reports `{"success": true, "status": {"loaded": true}}` after a slow load: the retry leaves the client unloaded until the next poll | read `data.status.loaded` and `data.status.loading`, as `checkModelStatus` does | not executed | Readiness.RetryIgnoresBackendStatus | Readiness.RetryIntendedReflectsBackend |
| frontend-mui/src/components/CameraInput.js:171-184 | the interval callback, and the `captureAndAnalyzeDirectly` it calls, are the closures of the render in which `startAnalysis` ran, so every tick reads that render's `analyzing` (false) and `lastAnalysisTime`; the in-flight and interval checks never block a tick | a backend that takes longer than the interval to answer: the next tick sends another frame while the first request is in flight | skip a tick while a request is in flight or within one interval of the last send, reading the current state | not executed | CameraSession.StaleTickSendsDuringRequest | CameraSession.LiveTicksWaitForReply |
