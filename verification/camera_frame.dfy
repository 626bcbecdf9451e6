/** One webcam frame on the backend (backend/modules/camera_analysis.py): the
    data-URL prefix is cut off, the image is decoded and handed to the face
    detector, and the outcome becomes a success result or an error reply.
    Base64/PIL decoding and FER detection are inputs; timings are left out. */
module CameraFrame {
  import opened Common
  import opened Scores
  import Utils

  // ---------------------------------------------------------------------
  // The data-URL prefix

  /** `image_data.split(',')[1]` when the text has a ',': the part between
      the first comma and the next one (or the end). */
  function StripDataUrl(data: string): (r: string)
    ensures ',' !in data ==> r == data
    ensures ',' in data ==> ',' !in r
    ensures ',' in data ==> exists k :: FieldAfterFirstComma(data, k, r)
  {
    match FirstIndexOf(data, ',')
    case None => data
    case Some(k) =>
      var rest := data[k + 1..];
      assert ',' !in data[..k];
      match FirstIndexOf(rest, ',')
      case None =>
        assert k + 1 + |rest| == |data|;
        assert rest == data[k + 1..k + 1 + |rest|];
        assert FieldAfterFirstComma(data, k, rest);
        rest
      case Some(j) =>
        var r := rest[..j];
        assert r == data[k + 1..k + 1 + j];
        assert data[k + 1 + j] == rest[j];
        assert forall i :: 0 <= i < j ==> r[i] == rest[i];
        assert FieldAfterFirstComma(data, k, r);
        r
  }

  /** `k` is the first comma of `data` and `r` runs from just after it to
      the next comma or the end. */
  predicate FieldAfterFirstComma(data: string, k: int, r: string)
  {
    0 <= k < |data| && data[k] == ',' && ',' !in data[..k]
    && k + 1 + |r| <= |data| && r == data[k + 1..k + 1 + |r|]
    && (k + 1 + |r| == |data| || data[k + 1 + |r|] == ',')
  }

  /** A data URL "header,payload" gives back its payload. */
  lemma StripDataUrlRoundTrip(header: string, payload: string)
    requires ',' !in header && ',' !in payload
    ensures StripDataUrl(header + "," + payload) == payload
  {
    var d := header + "," + payload;
    assert d[|header|] == ',';
    assert d[..|header|] == header;
    assert d[|header| + 1..] == payload;
  }

  /** Stripping twice is stripping once: the result has no comma left. */
  lemma StripDataUrlIdempotent(data: string)
    ensures StripDataUrl(StripDataUrl(data)) == StripDataUrl(data)
  {
  }

  // ---------------------------------------------------------------------
  // Processing a frame

  datatype DecodeOutcome = Decoded | DecodeFailed(reason: string)

  /** What FER reported: no face, a first face with its scores and box, or
      an exception (from conversion or detection). */
  datatype Detection = NoFaceFound | FaceFound(emotions: Table, box: seq<int>) | DetectionCrash(reason: string)

  /** The frame result. `emotions` is `None` for the stand-in result, whose
      scores are random. */
  datatype FrameResult = FrameResult(
    emotions: Option<Table>,
    dominant: string,
    dominantZh: string,
    box: seq<int>,
    isMock: bool)

  /** `(result, error)` of `process_camera_frame`: a result, the no-face
      dict, or an error string. */
  datatype FrameOutcome = FrameOk(result: FrameResult) | NoFaceError | FrameError(message: string)

  const NoFaceMessage := "未检测到人脸"
  const DecodeErrorPrefix := "图像数据格式错误: "
  const FrameErrorPrefix := "处理摄像头帧时出错: "
  /** Python's message for `max` over an empty dict. */
  const EmptyMaxReason := "max() arg is an empty sequence"

  /** The stand-in result when FER cannot be initialised. Its "happy" score
      is drawn from [0.5, 0.9] and every other from at most [0.05, 0.2], so
      "happy" always dominates; the box is drawn at random too. */
  function MockFrame(box: seq<int>): (r: FrameResult)
    ensures r.isMock && r.dominant == "happy" && r.dominantZh == "快乐"
  {
    assert ToLower("happy") == "happy";
    FrameResult(None, "happy", Utils.EmotionToChinese("happy"), box, true)
  }

  /** `process_camera_frame(image_data)`. `detectorReady` says whether FER
      is (or can now be) initialised; `decode` is what base64 and PIL make
      of the stripped payload; `mockBox` is the stand-in's random box. */
  function ProcessCameraFrame(image: string, detectorReady: bool, decode: string -> DecodeOutcome,
                              detection: Detection, mockBox: seq<int>): (r: FrameOutcome)
    ensures !detectorReady ==> r == FrameOk(MockFrame(mockBox))
    ensures detectorReady && decode(StripDataUrl(image)).DecodeFailed? ==>
      r == FrameError(DecodeErrorPrefix + decode(StripDataUrl(image)).reason)
    ensures detectorReady && decode(StripDataUrl(image)).Decoded? ==>
      (detection.NoFaceFound? ==> r == NoFaceError)
      && (detection.DetectionCrash? ==> r == FrameError(FrameErrorPrefix + detection.reason))
      && (detection.FaceFound? && detection.emotions == [] ==> r == FrameError(FrameErrorPrefix + EmptyMaxReason))
      && (detection.FaceFound? && detection.emotions != [] ==>
            r.FrameOk? && !r.result.isMock && r.result.emotions == Some(detection.emotions)
            && r.result.box == detection.box
            && (exists k :: IsFirstMax(detection.emotions, k) && detection.emotions[k].name == r.result.dominant)
            && r.result.dominantZh == Utils.EmotionToChinese(r.result.dominant))
  {
    if !detectorReady then FrameOk(MockFrame(mockBox))
    else match decode(StripDataUrl(image))
      case DecodeFailed(reason) => FrameError(DecodeErrorPrefix + reason)
      case Decoded =>
        match detection
        case NoFaceFound => NoFaceError
        case DetectionCrash(reason) => FrameError(FrameErrorPrefix + reason)
        case FaceFound(emotions, box) =>
          if emotions == [] then FrameError(FrameErrorPrefix + EmptyMaxReason)
          else
            var k := DominantIndex(emotions);
            var name := emotions[k].name;
            FrameOk(FrameResult(Some(emotions), name, Utils.EmotionToChinese(name), box, false))
  }

  /** `handle_camera_frame_request`: the no-face dict becomes a 400 with its
      message, an error string goes through `error_response` (400), and a
      result is returned as it is. */
  function HandleCameraFrame(outcome: FrameOutcome): (r: Utils.Reply<FrameResult>)
    ensures r.Success? <==> outcome.FrameOk?
    ensures r.Success? ==> r.payload == outcome.result
    ensures outcome.NoFaceError? ==> r == Utils.Failure(400, NoFaceMessage)
    ensures outcome.FrameError? ==> r == Utils.Failure(400, outcome.message)
  {
    match outcome
    case NoFaceError => Utils.Failure(400, NoFaceMessage)
    case FrameError(message) => Utils.ErrorResponse(message)
    case FrameOk(result) => Utils.Success(result)
  }

  /** A frame request fails only with status 400, and a real (not stand-in)
      success needs a decoded image with a detected face. */
  lemma FrameRequestOutcomes(image: string, detectorReady: bool, decode: string -> DecodeOutcome,
                             detection: Detection, mockBox: seq<int>)
    ensures var r := HandleCameraFrame(ProcessCameraFrame(image, detectorReady, decode, detection, mockBox));
            (r.Failure? ==> r.status == 400)
            && (r.Success? && !r.payload.isMock ==>
                  detectorReady && decode(StripDataUrl(image)).Decoded? && detection.FaceFound?)
  {
  }
}
