/** The webcam session in the client
    (frontend-mui/src/components/CameraInput.js): the gate that decides
    whether the current frame is sent, the classification of the backend's
    reply to it, the history of recognised frames, and the aggregate handed
    on when the camera stops. The browser's media, canvas and network APIs
    are reduced to what they report; the float averages of the scores are
    left out. */
module CameraSession {
  import opened Common

  // ---------------------------------------------------------------------
  // Labels

  const ChineseNames: map<string, string> := map[
    "angry" := "愤怒", "disgust" := "厌恶", "fear" := "恐惧", "happy" := "高兴",
    "sad" := "悲伤", "surprise" := "惊讶", "neutral" := "平静"]

  const UnknownZh := "未知"

  /** `getEmotionChineseName`: the seven FER labels, case-sensitive, and
      "未知" for anything else. */
  function ChineseName(emotion: string): (r: string)
    ensures emotion in ChineseNames ==> r == ChineseNames[emotion]
    ensures emotion !in ChineseNames ==> r == UnknownZh
    ensures r != UnknownZh <==> emotion in ChineseNames
  {
    if emotion in ChineseNames then ChineseNames[emotion] else UnknownZh
  }

  const Negative := "消极"
  const Positive := "积极"
  const Neutral := "中性"

  /** The sentiment category of a face emotion (`emotionMapping[e] || "中性"`). */
  function Category(emotion: string): (c: string)
    ensures c in {Negative, Positive, Neutral}
    ensures c == Negative <==> emotion in {"angry", "disgust", "fear", "sad"}
    ensures c == Positive <==> emotion == "happy"
  {
    if emotion in {"angry", "disgust", "fear", "sad"} then Negative
    else if emotion == "happy" then Positive
    else Neutral
  }

  // ---------------------------------------------------------------------
  // The history and its tally

  /** One recognised frame (`emotionData`), without its float scores. */
  datatype Frame = Frame(dominant: string, dominantZh: string)

  function Dominants(h: seq<Frame>): (d: seq<string>)
    ensures |d| == |h| && forall i :: 0 <= i < |h| ==> d[i] == h[i].dominant
  {
    seq(|h|, i requires 0 <= i < |h| => h[i].dominant)
  }

  /** `emotionCounts[e]`: how many frames have dominant `e`. */
  function Count(h: seq<Frame>, e: string): (n: nat)
    ensures n <= |h|
  {
    if |h| == 0 then 0 else Count(h[..|h| - 1], e) + (if h[|h| - 1].dominant == e then 1 else 0)
  }

  /** The tally is the multiplicity of `e` among the dominants. */
  lemma {:induction false} CountIsMultiplicity(h: seq<Frame>, e: string)
    ensures Count(h, e) == multiset(Dominants(h))[e]
  {
    if |h| > 0 {
      var n := |h| - 1;
      CountIsMultiplicity(h[..n], e);
      assert Dominants(h) == Dominants(h[..n]) + [h[n].dominant];
    }
  }

  /** `Object.keys(emotionCounts)`: the distinct dominants in order of first
      appearance. */
  function Keys(h: seq<Frame>): (r: seq<string>)
    ensures forall i, j :: 0 <= i < j < |r| ==> r[i] != r[j]
    ensures forall e :: e in r <==> e in Dominants(h)
  {
    if |h| == 0 then []
    else
      var n := |h| - 1;
      var prefix := Keys(h[..n]);
      assert Dominants(h) == Dominants(h[..n]) + [h[n].dominant];
      if h[n].dominant in prefix then prefix else prefix + [h[n].dominant]
  }

  /** Some frame has dominant `a` while `b` has not yet appeared. */
  predicate SeenBefore(h: seq<Frame>, a: string, b: string)
  {
    exists p :: 0 <= p < |h| && h[p].dominant == a && forall q :: 0 <= q <= p ==> h[q].dominant != b
  }

  /** `Object.keys` lists the labels in order of first appearance: each key
      is seen before any later key has appeared. */
  lemma {:induction false} KeysInFirstAppearanceOrder(h: seq<Frame>)
    ensures forall i, j :: 0 <= i < j < |Keys(h)| ==> SeenBefore(h, Keys(h)[i], Keys(h)[j])
  {
    if |h| > 0 {
      var n := |h| - 1;
      var r, prefix := Keys(h), Keys(h[..n]);
      KeysInFirstAppearanceOrder(h[..n]);
      assert Dominants(h) == Dominants(h[..n]) + [h[n].dominant];
      forall i, j | 0 <= i < j < |r|
        ensures SeenBefore(h, r[i], r[j])
      {
        assert r[i] == prefix[i];
        if j < |prefix| {
          assert r[j] == prefix[j];
          SeenBeforeExtends(h, n, r[i], r[j]);
        } else {
          assert r[j] == h[n].dominant && r[j] !in prefix;
          var p := DominantAt(h[..n], r[i]);
          assert forall q :: 0 <= q <= p ==> h[q].dominant == Dominants(h[..n])[q];
          assert h[p].dominant == r[i];
        }
      }
    }
  }

  lemma SeenBeforeExtends(h: seq<Frame>, n: nat, a: string, b: string)
    requires n <= |h| && SeenBefore(h[..n], a, b)
    ensures SeenBefore(h, a, b)
  {
    var p :| 0 <= p < n && h[..n][p].dominant == a && forall q :: 0 <= q <= p ==> h[..n][q].dominant != b;
    assert forall q :: 0 <= q <= p ==> h[q] == h[..n][q];
  }

  /** A position holding the dominant `e`. */
  lemma DominantAt(h: seq<Frame>, e: string) returns (p: nat)
    requires e in Dominants(h)
    ensures p < |h| && h[p].dominant == e
  {
    var k :| 0 <= k < |Dominants(h)| && Dominants(h)[k] == e;
    p := k;
  }

  /** `keys.reduce((a, b) => counts[a] > counts[b] ? a : b, acc)`: the
      champion is replaced by every key counting at least as much, so the
      winner is the last key with the largest count. */
  function Reduce(h: seq<Frame>, acc: string, keys: seq<string>): (w: string)
    ensures w == acc || w in keys
    ensures Count(h, acc) <= Count(h, w)
    ensures forall k :: k in keys ==> Count(h, k) <= Count(h, w)
    decreases |keys|
  {
    if |keys| == 0 then acc
    else Reduce(h, if Count(h, acc) > Count(h, keys[0]) then acc else keys[0], keys[1..])
  }

  /** A champion that is not among the keys survives only if every key
      counts strictly less. */
  lemma {:induction false} ReduceKeepsAcc(h: seq<Frame>, acc: string, keys: seq<string>)
    requires acc !in keys
    ensures Reduce(h, acc, keys) == acc ==> forall j :: 0 <= j < |keys| ==> Count(h, keys[j]) < Count(h, acc)
    decreases |keys|
  {
    if |keys| > 0 && Count(h, acc) > Count(h, keys[0]) {
      ReduceKeepsAcc(h, acc, keys[1..]);
      forall j | 1 <= j < |keys| ensures keys[j] == keys[1..][j - 1] { }
    }
  }

  /** Over distinct keys, a winner other than the initial champion is the
      last key with the largest count. */
  lemma {:induction false} ReduceIsLastBest(h: seq<Frame>, acc: string, keys: seq<string>)
    requires forall i, j :: 0 <= i < j < |keys| ==> keys[i] != keys[j]
    ensures Reduce(h, acc, keys) != acc ==> exists i :: LastBest(h, keys, i, Reduce(h, acc, keys))
    decreases |keys|
  {
    if |keys| > 0 {
      var next := if Count(h, acc) > Count(h, keys[0]) then acc else keys[0];
      var rest := keys[1..];
      var w := Reduce(h, next, rest);
      assert forall j :: 0 <= j < |rest| ==> rest[j] == keys[j + 1];
      if w != acc && w != next {
        ReduceIsLastBest(h, next, rest);
        var i :| LastBest(h, rest, i, w);
        assert LastBest(h, keys, i + 1, w);
      } else if w != acc {
        assert keys[0] !in rest;
        ReduceKeepsAcc(h, keys[0], rest);
        assert LastBest(h, keys, 0, w);
      }
    }
  }

  /** `keys[i]` is `w` and every later key counts strictly less. */
  predicate LastBest(h: seq<Frame>, keys: seq<string>, i: int, w: string)
  {
    0 <= i < |keys| && keys[i] == w && forall j :: i < j < |keys| ==> Count(h, keys[j]) < Count(h, w)
  }

  // ---------------------------------------------------------------------
  // The aggregate

  /** What `calculateAverageEmotions` returns, without the float averages. */
  datatype SessionResult = SessionResult(
    result: string,
    combinedResult: string,
    videoResult: string,
    textResult: string,
    dominant: Option<string>,
    dominantZh: string,
    historyLength: nat,
    historyData: seq<Frame>)

  const HistoryShown: nat := 5

  /** The aggregate of a session's history: the most frequent dominant
      (ties to the later key), its category as `result`, `combined_result`
      and `video_emotion.result`, and the last five frames. An empty
      history has no dominant, hence the neutral category. */
  function Aggregate(h: seq<Frame>): (r: SessionResult)
    ensures r.result == r.combinedResult == r.videoResult
    ensures r.textResult == Neutral
    ensures r.historyLength == |h| && r.historyData == KeepLast(h, HistoryShown)
    ensures r.dominant.None? <==> h == []
    ensures r.dominant.None? ==> r.result == Neutral && r.dominantZh == UnknownZh
    ensures r.dominant.Some? ==>
      r.dominant.value in Dominants(h)
      && (forall i :: 0 <= i < |h| ==> Count(h, h[i].dominant) <= Count(h, r.dominant.value))
      && r.result == Category(r.dominant.value) && r.dominantZh == ChineseName(r.dominant.value)
  {
    var keys := Keys(h);
    if h == [] then
      SessionResult(Neutral, Neutral, Neutral, Neutral, None, UnknownZh, 0, KeepLast(h, HistoryShown))
    else
      assert h[0].dominant in Dominants(h);
      var w := Reduce(h, keys[0], keys);
      assert forall i :: 0 <= i < |h| ==> h[i].dominant in keys by {
        forall i | 0 <= i < |h| ensures h[i].dominant in keys {
          assert Dominants(h)[i] == h[i].dominant;
        }
      }
      var c := Category(w);
      SessionResult(c, c, c, Neutral, Some(w), ChineseName(w), |h|, KeepLast(h, HistoryShown))
  }

  /** The aggregate's dominant is the last of the distinct dominants, in
      order of first appearance, whose count is the largest. */
  lemma AggregateIsLastBest(h: seq<Frame>)
    requires h != []
    ensures exists i :: LastBest(h, Keys(h), i, Aggregate(h).dominant.value)
  {
    var keys := Keys(h);
    assert h[0].dominant in Dominants(h);
    assert Aggregate(h).dominant == Some(Reduce(h, keys[0], keys));
    WinnerIsLastBest(h, keys);
  }

  lemma WinnerIsLastBest(h: seq<Frame>, keys: seq<string>)
    requires |keys| > 0 && forall i, j :: 0 <= i < j < |keys| ==> keys[i] != keys[j]
    ensures exists i :: LastBest(h, keys, i, Reduce(h, keys[0], keys))
  {
    var rest := keys[1..];
    var w := Reduce(h, keys[0], rest);
    assert Reduce(h, keys[0], keys) == w;
    assert forall j :: 0 <= j < |rest| ==> rest[j] == keys[j + 1];
    if w != keys[0] {
      ReduceIsLastBest(h, keys[0], rest);
      var i :| LastBest(h, rest, i, w);
      assert LastBest(h, keys, i + 1, w);
    } else {
      assert keys[0] !in rest;
      ReduceKeepsAcc(h, keys[0], rest);
      assert LastBest(h, keys, 0, w);
    }
  }

  /** A tie between the two dominants of a session goes to the one that
      appeared second. */
  lemma TieGoesToLaterKey()
    ensures Aggregate([Frame("sad", "悲伤"), Frame("happy", "高兴")]).dominant == Some("happy")
    ensures Aggregate([Frame("sad", "悲伤"), Frame("happy", "高兴")]).result == Positive
  {
    var h := [Frame("sad", "悲伤"), Frame("happy", "高兴")];
    assert h[..1] == [Frame("sad", "悲伤")];
    assert Count(h, "sad") == 1 && Count(h, "happy") == 1;
    assert Keys(h) == ["sad", "happy"];
  }

  /** `stopCamera`: an aggregate is handed on only when frames were recorded. */
  function StopCamera(h: seq<Frame>): (r: Option<SessionResult>)
    ensures r.Some? <==> |h| > 0
    ensures r.Some? ==> r.value.dominant.Some? && r.value.historyLength == |h|
  {
    if |h| > 0 then Some(Aggregate(h)) else None
  }

  // ---------------------------------------------------------------------
  // The gate

  /** What `captureAndAnalyzeDirectly` sees before capturing. Times are
      milliseconds. */
  datatype GateInput = GateInput(
    hasVideo: bool,
    hasCanvas: bool,
    analyzing: bool,
    readyState: int,
    now: int,
    lastAnalysisTime: int,
    analysisInterval: int,
    videoWidth: int,
    videoHeight: int)

  const HaveEnoughData: int := 4

  /** Whether the frame is sent, and the new `lastAnalysisTime`. */
  function Gate(g: GateInput): (r: (bool, int))
    ensures r.0 <==>
      (g.hasVideo && g.hasCanvas && !g.analyzing && g.readyState == HaveEnoughData
       && g.now - g.lastAnalysisTime >= g.analysisInterval && g.videoWidth > 0 && g.videoHeight > 0)
    ensures r.1 == if r.0 then g.now else g.lastAnalysisTime
  {
    if !g.hasVideo || !g.hasCanvas || g.analyzing then (false, g.lastAnalysisTime)
    else if g.readyState != HaveEnoughData then (false, g.lastAnalysisTime)
    else if g.now - g.lastAnalysisTime < g.analysisInterval then (false, g.lastAnalysisTime)
    else if g.videoWidth <= 0 || g.videoHeight <= 0 then (false, g.lastAnalysisTime)
    else (true, g.now)
  }

  /** Two sent frames are at least one interval apart. */
  lemma GateSpacesFrames(g: GateInput, later: GateInput)
    requires Gate(g).0 && later.lastAnalysisTime == Gate(g).1 && later.analysisInterval == g.analysisInterval
    requires later.now < g.now + g.analysisInterval
    ensures !Gate(later).0
  {
  }

  /** The component state a tick of the analysis timer reads:
      `analyzing`, `lastAnalysisTime` and `analysisInterval`. */
  datatype Snapshot = Snapshot(analyzing: bool, lastAnalysisTime: int, analysisInterval: int)

  /** What the video and canvas refs show when a tick runs; refs are
      always read live. */
  datatype Device = Device(hasVideo: bool, hasCanvas: bool, readyState: int, videoWidth: int, videoHeight: int)

  /** One tick of the analysis timer at time `now`, reading the component
      state from `state`: whether a frame is sent. The callback's own check
      repeats the gate's first one. */
  function TimerTick(state: Snapshot, d: Device, now: int): (sent: bool)
    ensures sent <==>
      (d.hasVideo && d.hasCanvas && !state.analyzing && d.readyState == HaveEnoughData
       && now - state.lastAnalysisTime >= state.analysisInterval && d.videoWidth > 0 && d.videoHeight > 0)
  {
    d.hasVideo && d.hasCanvas && !state.analyzing
    && Gate(GateInput(d.hasVideo, d.hasCanvas, state.analyzing, d.readyState, now,
                      state.lastAnalysisTime, state.analysisInterval, d.videoWidth, d.videoHeight)).0
  }

  /** As written, the timer's callback and the `captureAndAnalyzeDirectly`
      it calls are those of the render in which `startAnalysis` ran, so
      every tick reads that render's state. Once a tick sends a frame, every
      later tick sends one too, even while that frame's request is still in
      flight, when the current state would refuse it. */
  lemma StaleTickSendsDuringRequest(start: Snapshot, d: Device, now: int, later: int)
    requires TimerTick(start, d, now) && now <= later
    ensures TimerTick(start, d, later)
    ensures !TimerTick(Snapshot(true, now, start.analysisInterval), d, later)
  {
  }

  /** Reading the current state, a tick after a send waits for the reply
      and for one interval to pass. */
  lemma LiveTicksWaitForReply(d: Device, sentAt: int, interval: int, later: int)
    ensures !TimerTick(Snapshot(true, sentAt, interval), d, later)
    ensures later < sentAt + interval ==> !TimerTick(Snapshot(false, sentAt, interval), d, later)
  {
  }

  // ---------------------------------------------------------------------
  // Classifying the backend's reply

  /** The JSON the backend sent: `null`, or an object with the fields the
      client reads. A field that is absent, or an empty string, is `None`. */
  datatype FrameJson =
    | JsonNull
    | JsonObject(success: bool, dominant: Option<string>, dominantZh: Option<string>, hasEmotions: bool,
                 error: Option<string>)

  datatype JsonParse = ParseFails(reason: string) | Parsed(json: FrameJson)

  /** The response: a content type (if any), the status line, the body
      text and what `JSON.parse` makes of it. */
  datatype HttpReply =
    | FetchFails(reason: string)
    | HttpResponse(status: nat, statusText: string, contentType: Option<string>, text: string, parse: JsonParse)

  /** The outcome for the session: a frame joins the history, nothing
      happens (HTTP 400, as when no face was found), or an error is shown. */
  datatype FrameStep = Recognised(frame: Frame) | Silent | Failed(message: string)

  const NotJsonMessage := "网络错误: 检测到代理拦截或服务器响应格式错误"
  const FailPrefix := "视频分析失败: "
  const EmptyBodyReason := "空响应"
  const HtmlBodyReason := "收到HTML响应而非JSON，可能存在代理拦截"
  const NullMessage := "视频分析失败: 响应为空"
  const FormatMessage := "视频分析失败: 后端响应数据格式错误"
  const NoBaseUrlMessage := "配置错误: API基础URL未设置"
  const UnknownError := "未知错误"

  predicate Ok(status: nat)
  {
    200 <= status <= 299
  }

  /** The part of `captureAndAnalyzeDirectly` after the capture: the checks
      run in the order the client makes them. */
  function ClassifyReply(apiBaseUrl: string, reply: HttpReply): (r: FrameStep)
    ensures apiBaseUrl == "" ==> r == Failed(NoBaseUrlMessage)
    ensures apiBaseUrl != "" && reply.FetchFails? ==>
      r == Failed("网络错误: 无法连接到后端服务 (" + reply.reason + ")")
    ensures apiBaseUrl != "" && reply.HttpResponse? ==>
      var json := reply.contentType.Some? && Contains(reply.contentType.value, "application/json");
      (!json ==> r == Failed(NotJsonMessage))
      && (json && reply.status == 400 ==> r == Silent)
      && (json && !Ok(reply.status) && reply.status != 400 ==>
            r == Failed(FailPrefix + NatToString(reply.status) + " " + reply.statusText))
      && (json && Ok(reply.status) && Blank(reply.text) ==>
            r == Failed(FailPrefix + "无法解析响应 (" + EmptyBodyReason + ")"))
    ensures r.Silent? <==>
      (apiBaseUrl != "" && reply.HttpResponse? && reply.status == 400
       && reply.contentType.Some? && Contains(reply.contentType.value, "application/json"))
    ensures r.Recognised? <==>
      (apiBaseUrl != "" && reply.HttpResponse? && Ok(reply.status)
       && reply.contentType.Some? && Contains(reply.contentType.value, "application/json")
       && !Blank(reply.text) && !Contains(reply.text, "<html>") && !Contains(reply.text, "<!DOCTYPE html>")
       && reply.parse.Parsed? && reply.parse.json.JsonObject? && reply.parse.json.success
       && reply.parse.json.dominant.Some? && reply.parse.json.hasEmotions)
    ensures r.Recognised? ==>
      (r.frame.dominant == reply.parse.json.dominant.value
       && r.frame.dominantZh == reply.parse.json.dominantZh.GetOr(ChineseName(r.frame.dominant)))
  {
    if apiBaseUrl == "" then Failed(NoBaseUrlMessage)
    else match reply
      case FetchFails(reason) => Failed("网络错误: 无法连接到后端服务 (" + reason + ")")
      case HttpResponse(status, statusText, contentType, text, parse) =>
        if contentType.None? || !Contains(contentType.value, "application/json") then Failed(NotJsonMessage)
        else if !Ok(status) then
          if status == 400 then Silent else Failed(FailPrefix + NatToString(status) + " " + statusText)
        else if Trim(text) == [] then Failed(FailPrefix + "无法解析响应 (" + EmptyBodyReason + ")")
        else if Contains(text, "<html>") || Contains(text, "<!DOCTYPE html>") then
          Failed(FailPrefix + "无法解析响应 (" + HtmlBodyReason + ")")
        else match parse
          case ParseFails(reason) => Failed(FailPrefix + "无法解析响应 (" + reason + ")")
          case Parsed(JsonNull) => Failed(NullMessage)
          case Parsed(JsonObject(success, dominant, dominantZh, hasEmotions, error)) =>
            if !success then Failed(FailPrefix + error.GetOr(UnknownError))
            else if dominant.None? || !hasEmotions then Failed(FormatMessage)
            else Recognised(Frame(dominant.value, dominantZh.GetOr(ChineseName(dominant.value))))
  }

  /** The history after one sent frame: only a recognised frame is added. */
  function Record(h: seq<Frame>, step: FrameStep): (r: seq<Frame>)
    ensures step.Recognised? ==> r == h + [step.frame]
    ensures !step.Recognised? ==> r == h
  {
    if step.Recognised? then h + [step.frame] else h
  }

  /** A recognised frame raises its dominant's tally by exactly one and
      leaves every other tally alone. */
  lemma RecordBumpsOneTally(h: seq<Frame>, step: FrameStep, e: string)
    requires step.Recognised?
    ensures Count(Record(h, step), e) == Count(h, e) + (if e == step.frame.dominant then 1 else 0)
  {
    assert Record(h, step)[..|h|] == h;
  }

  // ---------------------------------------------------------------------
  // The face box

  /** `face_location`: an array `[x, y, w, h]` or an object with `x`, `y`,
      `width`, `height`; a missing element or field is `None`. */
  datatype FaceLocation =
    | BoxArray(values: seq<int>)
    | BoxObject(x: Option<int>, y: Option<int>, width: Option<int>, height: Option<int>)

  datatype Rect = Rect(x: Option<int>, y: Option<int>, w: Option<int>, h: Option<int>)

  function At(values: seq<int>, i: nat): Option<int>
  {
    if i < |values| then Some(values[i]) else None
  }

  /** The box normalisation of `drawEmotionOnCanvas`. */
  function NormaliseBox(loc: FaceLocation): (r: Rect)
    ensures loc.BoxObject? ==> r == Rect(loc.x, loc.y, loc.width, loc.height)
    ensures loc.BoxArray? && |loc.values| >= 4 ==>
      r == Rect(Some(loc.values[0]), Some(loc.values[1]), Some(loc.values[2]), Some(loc.values[3]))
  {
    match loc
    case BoxArray(v) => Rect(At(v, 0), At(v, 1), At(v, 2), At(v, 3))
    case BoxObject(x, y, width, height) => Rect(x, y, width, height)
  }

  /** Both shapes of the same box draw the same rectangle. */
  lemma BoxShapesAgree(x: int, y: int, w: int, h: int)
    ensures NormaliseBox(BoxArray([x, y, w, h])) == NormaliseBox(BoxObject(Some(x), Some(y), Some(w), Some(h)))
  {
  }
}
