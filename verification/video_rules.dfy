/** Recorded-video analysis of the backend (backend/modules/video_analysis.py):
    which frames are sampled, how per-frame face emotions become one face
    result, what the speech track yields, how the two are combined, and how
    the upload handler turns the outcome into a reply. OpenCV, moviepy and
    Whisper are reduced to what they report: the frame count, what reading a
    sampled frame gave, and what extracting and recognising the audio gave. */
module VideoRules {
  import opened Common
  import opened Scores
  import Utils
  import TextSentiment

  // ---------------------------------------------------------------------
  // Frame sampling

  const MaxSamples: nat := 20

  /** Every frame of a short video, otherwise twenty frames spread evenly:
      `int(i * total / 20)` for i in 0..19. A negative frame count samples
      nothing, as `range` of a negative number is empty. */
  function SampleIndices(total: int): (r: seq<int>)
    ensures total <= MaxSamples ==>
      (|r| == (if total < 0 then 0 else total) && forall i :: 0 <= i < |r| ==> r[i] == i)
    ensures total > MaxSamples ==>
      (|r| == MaxSamples && forall i :: 0 <= i < |r| ==> r[i] == i * total / MaxSamples)
  {
    if total <= MaxSamples then seq(if total < 0 then 0 else total, i => i)
    else seq(MaxSamples, i => i * total / MaxSamples)
  }

  lemma DivisionStep(i: int, total: int)
    requires 0 <= i && total > MaxSamples
    ensures i * total / MaxSamples < (i + 1) * total / MaxSamples
  {
    var a := i * total;
    assert (i + 1) * total == a + total;
    assert a / MaxSamples * MaxSamples <= a;
    assert a + total >= a / MaxSamples * MaxSamples + MaxSamples;
    assert (a + total) / MaxSamples >= a / MaxSamples + 1 by {
      var q := a / MaxSamples;
      assert a + total >= (q + 1) * MaxSamples;
    }
  }

  /** The sampled indices are distinct frames of the video, in order, and
      there are never more than twenty. */
  lemma SampleIndicesAreFrames(total: int)
    ensures |SampleIndices(total)| <= MaxSamples
    ensures forall i :: 0 <= i < |SampleIndices(total)| ==> 0 <= SampleIndices(total)[i] < total
    ensures forall i, j :: 0 <= i < j < |SampleIndices(total)| ==> SampleIndices(total)[i] < SampleIndices(total)[j]
  {
    var r := SampleIndices(total);
    if total > MaxSamples {
      forall i | 0 <= i < |r| ensures 0 <= r[i] < total {
        SampleInRange(i, total);
      }
      forall i, j | 0 <= i < j < |r| ensures r[i] < r[j] {
        StrictlyIncreasing(i, j, total);
      }
    }
  }

  lemma SampleInRange(i: int, total: int)
    requires 0 <= i < MaxSamples && total > MaxSamples
    ensures 0 <= i * total / MaxSamples < total
  {
    assert i * total <= 19 * total;
    assert 19 * total / MaxSamples < total;
  }

  lemma {:induction false} StrictlyIncreasing(i: int, j: int, total: int)
    requires 0 <= i < j && total > MaxSamples
    ensures i * total / MaxSamples < j * total / MaxSamples
    decreases j - i
  {
    DivisionStep(j - 1, total);
    if i < j - 1 {
      StrictlyIncreasing(i, j - 1, total);
    }
  }

  // ---------------------------------------------------------------------
  // Face emotions

  /** What reading and analysing one sampled frame gave: the frame could
      not be read, no face was found, faces were found (the first face's
      scores are kept), or the detector raised (the frame is skipped). */
  datatype FrameRead = Unreadable | NoFace | Faces(first: Table) | DetectError

  /** The first-face score tables of the sampled frames, in sampling order;
      nothing at all when the face detector is not loaded. */
  function CollectEmotions(detectorLoaded: bool, reader: int -> FrameRead, indices: seq<int>): (r: seq<Table>)
    ensures |r| <= |indices|
    ensures !detectorLoaded ==> r == []
    ensures forall t :: t in r <==>
      detectorLoaded && exists i :: 0 <= i < |indices| && reader(indices[i]) == Faces(t)
  {
    if !detectorLoaded || |indices| == 0 then []
    else
      var n := |indices| - 1;
      var rest := CollectEmotions(detectorLoaded, reader, indices[..n]);
      assert forall i :: 0 <= i < n ==> indices[..n][i] == indices[i];
      match reader(indices[n])
      case Faces(t) => rest + [t]
      case _ => rest
  }

  /** The positions in `indices` whose frame showed a face, in increasing
      order. */
  function FacePositions(reader: int -> FrameRead, indices: seq<int>): (p: seq<nat>)
    ensures forall k :: 0 <= k < |p| ==> p[k] < |indices| && reader(indices[p[k]]).Faces?
    ensures forall k, l :: 0 <= k < l < |p| ==> p[k] < p[l]
    ensures forall i :: 0 <= i < |indices| && reader(indices[i]).Faces? ==> i in p
  {
    if |indices| == 0 then []
    else
      var n := |indices| - 1;
      var rest := FacePositions(reader, indices[..n]);
      assert forall i :: 0 <= i < n ==> indices[..n][i] == indices[i];
      if reader(indices[n]).Faces? then rest + [n] else rest
  }

  /** With the detector loaded, every sampled frame showing a face gives
      exactly one table, its first face's, and the tables follow the
      sampling order. */
  lemma {:induction false} CollectEmotionsFollowsFaces(reader: int -> FrameRead, indices: seq<int>)
    ensures var r, p := CollectEmotions(true, reader, indices), FacePositions(reader, indices);
      |r| == |p| && forall k :: 0 <= k < |r| ==> reader(indices[p[k]]) == Faces(r[k])
  {
    if |indices| > 0 {
      var n := |indices| - 1;
      var r, p := CollectEmotions(true, reader, indices[..n]), FacePositions(reader, indices[..n]);
      CollectEmotionsFollowsFaces(reader, indices[..n]);
      forall k | 0 <= k < |r|
        ensures p[k] < n && reader(indices[p[k]]) == Faces(r[k])
      {
        assert indices[..n][p[k]] == indices[p[k]];
      }
      match reader(indices[n])
      case Faces(t) =>
        assert CollectEmotions(true, reader, indices) == r + [t];
        assert FacePositions(reader, indices) == p + [n];
      case _ =>
        assert CollectEmotions(true, reader, indices) == r;
        assert FacePositions(reader, indices) == p;
    }
  }

  /** `face_result`. `totals` holds the per-label sum of scores over the
      `frames` frames with a face; the backend reports `totals / frames`,
      which has the same labels and the same largest entry. */
  datatype FaceResult = FaceResult(totals: Table, frames: nat, dominant: string, dominantZh: string)

  const Unknown := "unknown"
  const UnknownZh := "未知"

  const NoFaces := FaceResult([], 0, Unknown, UnknownZh)

  /** The face result of a run of frames: "unknown" when no frame had a
      face; otherwise the first label with the largest total. When every
      collected table is empty, `max` over an empty dict raises, which is
      `None` here. */
  function FaceAnalysis(emotions: seq<Table>): (r: Option<FaceResult>)
    ensures emotions == [] ==> r == Some(NoFaces)
    ensures emotions != [] ==> (r.None? <==> forall i :: 0 <= i < |emotions| ==> emotions[i] == [])
    ensures r.Some? && emotions != [] ==>
      r.value.frames == |emotions| && r.value.totals == Totals(emotions)
      && r.value.dominant in Labels(Totals(emotions))
      && (exists k :: IsFirstMax(r.value.totals, k) && r.value.totals[k].name == r.value.dominant)
      && r.value.dominantZh == Utils.EmotionToChinese(r.value.dominant)
  {
    if emotions == [] then Some(NoFaces)
    else
      var totals := Totals(emotions);
      if totals == [] then
        LabelsEmpty(totals);
        forall i | 0 <= i < |emotions| ensures emotions[i] == [] {
          LabelsEmpty(emotions[i]);
        }
        None
      else
        var k := DominantIndex(totals);
        assert totals[k] in totals;
        assert exists i :: 0 <= i < |emotions| && totals[k].name in Labels(emotions[i]) by {
          assert totals[k].name in Labels(totals);
        }
        assert !(forall i :: 0 <= i < |emotions| ==> emotions[i] == []);
        var name := totals[k].name;
        Some(FaceResult(totals, |emotions|, name, Utils.EmotionToChinese(name)))
  }

  /** The dominant label has the largest per-label sum over the frames,
      which is also the largest average. */
  lemma DominantHasLargestTotal(emotions: seq<Table>)
    requires emotions != [] && FaceAnalysis(emotions).Some?
    ensures forall x :: x in Labels(Totals(emotions)) ==>
      FrameSum(emotions, x) <= FrameSum(emotions, FaceAnalysis(emotions).value.dominant)
  {
    var r := FaceAnalysis(emotions).value;
    var t := Totals(emotions);
    var k :| IsFirstMax(t, k) && t[k].name == r.dominant;
    ScoreOfDistinct(t, k);
    forall x | x in Labels(t) ensures FrameSum(emotions, x) <= FrameSum(emotions, r.dominant) {
      var j :| 0 <= j < |t| && t[j].name == x;
      ScoreOfDistinct(t, j);
    }
  }

  // ---------------------------------------------------------------------
  // The speech track

  /** What extracting and recognising the audio gave: the video has no
      audio track; recognition returned a text and an error string (empty
      when there was no error); or extraction raised. */
  datatype AudioOutcome = NoAudioTrack | Recognition(text: string, speechError: string) | ExtractionCrash(reason: string)

  /** `speech_result`: a failure with its message, or the recognised text
      with the text analysis (or the reason it is missing). */
  datatype SpeechResult =
    | SpeechFailed(error: string)
    | SpeechOk(text: string, emotionAnalysis: Option<TextSentiment.TextAnalysis>, emotionError: Option<string>)

  const NoWhisperMessage := "语音识别模型未加载，请稍后再试"
  const NoAudioTrackMessage := "视频没有音频轨道"
  const AudioErrorPrefix := "处理视频音频时出错: "
  /** Python's message for the undefined names `model` and `tokenizer`. */
  const NameErrorReason := "name 'model' is not defined"
  const NoTextModelMessage := "文本情感分析模型未加载"

  /** The speech half of `process_video` as written. After a successful
      recognition it tests `model` and `tokenizer`, which the module never
      imports; the NameError lands in the audio handler, so recognised
      speech always ends as a failure. */
  function SpeechAnalysis(whisperLoaded: bool, audio: AudioOutcome): (r: SpeechResult)
    ensures r.SpeechFailed?
    ensures !whisperLoaded ==> r.error == NoWhisperMessage
    ensures whisperLoaded && audio.NoAudioTrack? ==> r.error == NoAudioTrackMessage
    ensures whisperLoaded && audio.Recognition? && audio.speechError != "" ==> r.error == audio.speechError
    ensures whisperLoaded && audio.ExtractionCrash? ==> r.error == AudioErrorPrefix + audio.reason
  {
    if !whisperLoaded then SpeechFailed(NoWhisperMessage)
    else match audio
      case NoAudioTrack => SpeechFailed(NoAudioTrackMessage)
      case Recognition(text, speechError) =>
        if speechError != "" then SpeechFailed(speechError)
        else SpeechFailed(AudioErrorPrefix + NameErrorReason)
      case ExtractionCrash(reason) => SpeechFailed(AudioErrorPrefix + reason)
  }

  /** Whatever the text, recognised speech never reaches the text analysis. */
  lemma RecognisedSpeechAlwaysFails(text: string)
    ensures SpeechAnalysis(true, Recognition(text, "")) == SpeechFailed(AudioErrorPrefix + NameErrorReason)
  {
  }

  /** The speech half as evidently intended, with the text model's state an
      input: a recognised text is analysed when the text model is loaded. */
  function SpeechAnalysisIntended(whisperLoaded: bool, audio: AudioOutcome,
                                  textModelLoaded: bool, engine: TextSentiment.Engine): (r: SpeechResult)
    ensures !(whisperLoaded && audio.Recognition? && audio.speechError == "") ==>
      r == SpeechAnalysis(whisperLoaded, audio)
    ensures whisperLoaded && audio.Recognition? && audio.speechError == "" ==>
      r.SpeechOk? && r.text == audio.text
      && (r.emotionAnalysis.Some? <==> textModelLoaded && !engine.Crashes?)
      && (r.emotionAnalysis.Some? <==> r.emotionError.None?)
      && (r.emotionAnalysis.Some? ==> r.emotionAnalysis.value.text == audio.text)
  {
    if whisperLoaded && audio.Recognition? && audio.speechError == "" then
      if !textModelLoaded then SpeechOk(audio.text, None, Some(NoTextModelMessage))
      else match TextSentiment.AnalyzeEmotionIntended(audio.text, engine)
        case Analysed(a) => SpeechOk(audio.text, Some(a), None)
        case AnalysisFailed(m) => SpeechOk(audio.text, None, Some(m))
    else SpeechAnalysis(whisperLoaded, audio)
  }

  // ---------------------------------------------------------------------
  // Combining face and text

  /** The two keys `combine_results` reads from its face argument. */
  datatype FaceView = FaceView(dominant: Option<string>, dominantZh: Option<string>)

  /** The key `combine_results` reads from its text argument. `None` stands
      for a missing or empty dict. */
  datatype TextView = TextView(sentimentClass: Option<int>)

  datatype Combined = Combined(
    source: string,
    dominant: string,
    dominantZh: string,
    confidence: nat,          // percent
    textEmotion: Option<string>,
    textEmotionZh: Option<string>,
    error: Option<string>)

  /** `sentiment_to_emotion.get(c, "neutral")`. */
  function SentimentToEmotion(c: int): (e: string)
    ensures e in {"angry", "sad", "neutral", "happy"}
    ensures e == "happy" <==> c == 3 || c == 4
    ensures e == "neutral" <==> !(0 <= c <= 4) || c == 2
  {
    if c == 0 then "angry" else if c == 1 then "sad" else if c == 3 || c == 4 then "happy" else "neutral"
  }

  /** Python's message for calling `.get` on `None`. */
  const NoneGetReason := "'NoneType' object has no attribute 'get'"

  /** `combine_results(video_result, text_result)`. */
  function CombineResults(video: Option<FaceView>, text: Option<TextView>): (r: Combined)
    ensures (text.None? || text.value.sentimentClass.None?) && video.Some? ==>
      r == Combined("face", video.value.dominant.GetOr(Unknown), video.value.dominantZh.GetOr(UnknownZh),
                    70, None, None, None)
    ensures (text.None? || text.value.sentimentClass.None?) && video.None? ==>
      r == Combined("error", Unknown, UnknownZh, 50, None, None, Some(NoneGetReason))
    ensures text.Some? && text.value.sentimentClass.Some? && (video.None? || video.value.dominant.None?) ==>
      var e := SentimentToEmotion(text.value.sentimentClass.value);
      r == Combined("text", e, Utils.EmotionToChinese(e), 80, None, None, None)
    ensures text.Some? && text.value.sentimentClass.Some? && video.Some? && video.value.dominant.Some? ==>
      var e := SentimentToEmotion(text.value.sentimentClass.value);
      var f := video.value.dominant.value;
      r.dominant == f && r.dominantZh == Utils.EmotionToChinese(f) && r.error.None?
      && (r.source == "combined" <==> e == f)
      && (r.source == "combined" ==> r.confidence == 90 && r.textEmotion.None?)
      && (r.source != "combined" ==>
            (r.source == "face_priority" && r.confidence == 70
             && r.textEmotion == Some(e) && r.textEmotionZh == Some(Utils.EmotionToChinese(e))))
  {
    if text.None? || text.value.sentimentClass.None? then
      match video
      case None => Combined("error", Unknown, UnknownZh, 50, None, None, Some(NoneGetReason))
      case Some(v) => Combined("face", v.dominant.GetOr(Unknown), v.dominantZh.GetOr(UnknownZh), 70, None, None, None)
    else
      var e := SentimentToEmotion(text.value.sentimentClass.value);
      if video.None? || video.value.dominant.None? then
        Combined("text", e, Utils.EmotionToChinese(e), 80, None, None, None)
      else
        var f := video.value.dominant.value;
        if e == f then Combined("combined", f, Utils.EmotionToChinese(f), 90, None, None, None)
        else Combined("face_priority", f, Utils.EmotionToChinese(f), 70,
                      Some(e), Some(Utils.EmotionToChinese(e)), None)
  }

  // ---------------------------------------------------------------------
  // The whole video

  /** Everything `process_video` learns from its libraries. */
  datatype VideoInput = VideoInput(
    totalFrames: int,
    detectorLoaded: bool,
    reader: int -> FrameRead,
    whisperLoaded: bool,
    audio: AudioOutcome)

  datatype VideoResult = VideoResult(face: FaceResult, speech: SpeechResult, combined: Combined, frames: int)

  const VideoErrorPrefix := "处理视频时出错: "
  /** Python's message for `max` over an empty dict. */
  const EmptyMaxReason := "max() arg is an empty sequence"

  function AsFaceView(f: FaceResult): FaceView
  {
    FaceView(Some(f.dominant), Some(f.dominantZh))
  }

  /** What `combine_results` reads from the speech dict when that is
      passed as its text argument: the dict is never empty and never has a
      `sentiment_class` key. */
  function SpeechDictView(s: SpeechResult): (t: TextView)
    ensures t.sentimentClass.None?
  {
    TextView(None)
  }

  /** The face result of the sampled frames. */
  function SampledFace(v: VideoInput): Option<FaceResult>
  {
    FaceAnalysis(CollectEmotions(v.detectorLoaded, v.reader, SampleIndices(v.totalFrames)))
  }

  /** `process_video` as written: the speech dict itself goes to
      `combine_results` as its text argument. The pair is `(result, error)`:
      the error is reported exactly when the sampled frames' face analysis
      raises. */
  function ProcessVideo(v: VideoInput): (r: (Option<VideoResult>, Option<string>))
    ensures r.0.Some? <==> r.1.None?
    ensures r.1.Some? <==> SampledFace(v).None?
    ensures r.1.Some? ==> r.1.value == VideoErrorPrefix + EmptyMaxReason
    ensures r.0.Some? ==>
      Some(r.0.value.face) == SampledFace(v)
      && r.0.value.speech == SpeechAnalysis(v.whisperLoaded, v.audio) && r.0.value.frames == v.totalFrames
      && r.0.value.combined == CombineResults(Some(AsFaceView(r.0.value.face)), Some(SpeechDictView(r.0.value.speech)))
  {
    var emotions := CollectEmotions(v.detectorLoaded, v.reader, SampleIndices(v.totalFrames));
    match FaceAnalysis(emotions)
    case None => (None, Some(VideoErrorPrefix + EmptyMaxReason))
    case Some(face) =>
      var speech := SpeechAnalysis(v.whisperLoaded, v.audio);
      (Some(VideoResult(face, speech, CombineResults(Some(AsFaceView(face)), Some(SpeechDictView(speech))), v.totalFrames)), None)
  }

  /** As written, the combined verdict is always the face verdict. */
  lemma CombinedIsAlwaysFace(v: VideoInput)
    requires ProcessVideo(v).0.Some?
    ensures var res := ProcessVideo(v).0.value;
            res.combined.source == "face" && res.combined.dominant == res.face.dominant
            && res.combined.confidence == 70
  {
  }

  /** Text model state the intended version also depends on. */
  datatype TextModel = TextModel(loaded: bool, engine: TextSentiment.Engine)

  function AnalysisView(s: SpeechResult): Option<TextView>
  {
    if s.SpeechOk? && s.emotionAnalysis.Some? then Some(TextView(Some(s.emotionAnalysis.value.sentimentClass)))
    else None
  }

  /** `process_video` as evidently intended: the speech text's analysis,
      when there is one, goes to `combine_results`. */
  function ProcessVideoIntended(v: VideoInput, m: TextModel): (r: (Option<VideoResult>, Option<string>))
    ensures r.0.Some? <==> r.1.None?
    ensures r.1.Some? <==> ProcessVideo(v).1.Some?
    ensures r.0.Some? ==>
      r.0.value.face == ProcessVideo(v).0.value.face
      && r.0.value.speech == SpeechAnalysisIntended(v.whisperLoaded, v.audio, m.loaded, m.engine)
      && r.0.value.combined == CombineResults(Some(AsFaceView(r.0.value.face)), AnalysisView(r.0.value.speech))
  {
    var emotions := CollectEmotions(v.detectorLoaded, v.reader, SampleIndices(v.totalFrames));
    match FaceAnalysis(emotions)
    case None => (None, Some(VideoErrorPrefix + EmptyMaxReason))
    case Some(face) =>
      var speech := SpeechAnalysisIntended(v.whisperLoaded, v.audio, m.loaded, m.engine);
      (Some(VideoResult(face, speech, CombineResults(Some(AsFaceView(face)), AnalysisView(speech)), v.totalFrames)), None)
  }

  /** Once speech is recognised and analysed, the intended version weighs
      the text against the face: "combined" exactly when they agree. */
  lemma IntendedCombinesTextAndFace(v: VideoInput, m: TextModel)
    requires ProcessVideoIntended(v, m).0.Some?
    requires v.whisperLoaded && v.audio.Recognition? && v.audio.speechError == ""
    requires m.loaded && !m.engine.Crashes?
    ensures var res := ProcessVideoIntended(v, m).0.value;
            var e := SentimentToEmotion(res.speech.emotionAnalysis.value.sentimentClass);
            res.speech.SpeechOk? && res.speech.emotionAnalysis.Some?
            && (res.combined.source == "combined" <==> e == res.face.dominant)
            && (res.combined.source != "combined" ==> res.combined.source == "face_priority")
  {
  }

  /** The face result is "unknown" when no sampled frame had a face, and
      in particular when the detector is not loaded. */
  lemma NoDetectorMeansUnknownFace(v: VideoInput)
    requires !v.detectorLoaded
    ensures ProcessVideo(v).0.Some? && ProcessVideo(v).0.value.face == NoFaces
  {
  }

  // ---------------------------------------------------------------------
  // The upload handler

  datatype UploadBody = UploadBody(result: Option<VideoResult>, partial: bool, warning: Option<string>)

  /** `handle_video_upload_request` after `process_video` returned
      `(result, error)`: both set is a partial success, an error alone a
      400 failure with that message, otherwise a full success. An empty
      error string counts as no error. */
  function HandleVideoUpload(result: Option<VideoResult>, error: Option<string>): (r: Utils.Reply<UploadBody>)
    ensures error.Some? && error.value != "" && result.Some? ==>
      r == Utils.Success(UploadBody(result, true, error))
    ensures error.Some? && error.value != "" && result.None? ==> r == Utils.Failure(400, error.value)
    ensures error.None? || error.value == "" ==> r == Utils.Success(UploadBody(result, false, None))
  {
    var failed := error.Some? && error.value != "";
    if failed && result.Some? then Utils.Success(UploadBody(result, true, error))
    else if failed then Utils.ErrorResponse(error.value)
    else Utils.Success(UploadBody(result, false, None))
  }

  /** `process_video` never returns both a result and an error, so the
      handler's partial-success branch is never taken. */
  lemma UploadNeverPartial(v: VideoInput, m: TextModel)
    ensures var (res, err) := ProcessVideo(v);
            var reply := HandleVideoUpload(res, err);
            (reply.Success? <==> res.Some?) && (reply.Success? ==> !reply.payload.partial)
    ensures var (res, err) := ProcessVideoIntended(v, m);
            var reply := HandleVideoUpload(res, err);
            (reply.Success? <==> res.Some?) && (reply.Success? ==> !reply.payload.partial)
  {
  }
}
