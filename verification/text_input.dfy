/** The text form of the client (frontend-mui/src/components/TextInput.js):
    the three input checks, the text that is sent, the button's enablement
    and what the user sees for each kind of reply. The fetch itself and its
    timer are reduced to the outcome they produce. */
module TextInput {
  import opened Common
  import TextSentiment
  import Utils

  const EmptyMessage := "请输入要分析的文本"
  const TooLongMessage := "文本过长，请将文本限制在5000字符以内"
  const NoWordMessage := "请输入包含有效文字的内容"

  /** `textInput.length` may not exceed this many UTF-16 code units. */
  const MaxLength: nat := 5000

  /** The class `[一-龥a-zA-Z0-9]`: a common CJK ideograph, an ASCII
      letter or a digit. */
  predicate WordChar(c: char)
  {
    '一' <= c <= '龥' || 'a' <= c <= 'z' || 'A' <= c <= 'Z' || '0' <= c <= '9'
  }

  predicate HasWordChar(s: string)
  {
    exists i | 0 <= i < |s| :: WordChar(s[i])
  }

  datatype Check = Valid | Invalid(message: string)

  /** `validateInput`: the trimmed text must be non-empty, the raw text at
      most 5000 code units long, and some character a letter, digit or
      ideograph; the first failing check names the error. */
  function ValidateInput(input: string): (r: Check)
    ensures r.Valid? <==> !Blank(input) && Utf16Length(input) <= MaxLength && HasWordChar(input)
    ensures Blank(input) ==> r == Invalid(EmptyMessage)
    ensures !Blank(input) && Utf16Length(input) > MaxLength ==> r == Invalid(TooLongMessage)
    ensures !Blank(input) && Utf16Length(input) <= MaxLength && !HasWordChar(input) ==> r == Invalid(NoWordMessage)
  {
    if Trim(input) == [] then Invalid(EmptyMessage)
    else if Utf16Length(input) > MaxLength then Invalid(TooLongMessage)
    else if !HasWordChar(input) then Invalid(NoWordMessage)
    else Valid
  }

  /** The length check counts the raw text: padding a text that has some
      content with whitespace past 5000 code units makes it too long,
      although its trimmed text is unchanged. */
  lemma LengthCountsSpaces(body: string, pad: string)
    requires !Blank(body) && Blank(pad)
    requires Utf16Length(body) + |pad| > MaxLength
    ensures ValidateInput(body + pad) == Invalid(TooLongMessage)
  {
    var s := body + pad;
    Utf16Append(body, pad);
    BlankIsOneUnitEach(pad);
    var i :| 0 <= i < |body| && !IsSpace(body[i]);
    assert s[i] == body[i];
  }

  /** Whitespace lies in the Basic Multilingual Plane. */
  lemma {:induction false} BlankIsOneUnitEach(s: string)
    requires Blank(s)
    ensures Utf16Length(s) == |s|
  {
    if |s| > 0 {
      assert Blank(s[..|s| - 1]);
      BlankIsOneUnitEach(s[..|s| - 1]);
    }
  }

  lemma {:induction false} Utf16Append(a: string, b: string)
    ensures Utf16Length(a + b) == Utf16Length(a) + Utf16Length(b)
    decreases |b|
  {
    if |b| > 0 {
      var n := |b| - 1;
      assert (a + b)[..|a + b| - 1] == a + b[..n];
      Utf16Append(a, b[..n]);
    } else {
      assert a + b == a;
    }
  }

  /** The analyse button is enabled exactly when the model is loaded and
      the trimmed text is non-empty. */
  function ButtonEnabled(modelLoaded: bool, input: string): (b: bool)
    ensures b <==> modelLoaded && !Blank(input)
  {
    modelLoaded && Trim(input) != []
  }

  // ---------------------------------------------------------------------
  // Sending and the reply

  /** How the request ended: aborted by the 30-second timer, rejected by
      fetch, a non-OK status, a body that is not JSON, or a JSON body. */
  datatype Reply =
    | Aborted
    | FetchRejected(message: string)
    | NotOk(status: nat, statusText: string)
    | BadJson(message: string)
    | Json(success: bool, error: Option<string>)

  /** What the user ends up with: the input is refused before sending, or
      the trimmed text is sent and the reply either delivers the result
      (with the raw input as the recognised text) or sets an error. */
  datatype Step = NotSent(message: string) | Sent(requestText: string, outcome: Outcome)

  datatype Outcome = Delivered(recognizedText: string) | ShowsError(message: string)

  const TimeoutMessage := "请求超时，服务器响应时间过长，请稍后重试"
  const NetworkMessage := "网络错误，请检查您的网络连接或服务器状态"
  const ThrownPrefix := "分析文本时出错: "

  /** The `catch` block's message for an error with this message. */
  function CaughtMessage(message: string): (r: string)
    ensures r == NetworkMessage <==> Contains(message, "NetworkError") || Contains(message, "Failed to fetch")
    ensures r != NetworkMessage ==> r == ThrownPrefix + message
  {
    if Contains(message, "NetworkError") || Contains(message, "Failed to fetch") then NetworkMessage
    else
      assert (ThrownPrefix + message)[0] != NetworkMessage[0];
      ThrownPrefix + message
  }

  /** `analyzeText` for the current input and the reply it gets. */
  function AnalyzeText(input: string, reply: Reply): (r: Step)
    ensures r.NotSent? <==> !ValidateInput(input).Valid?
    ensures r.NotSent? ==> r.message == ValidateInput(input).message
    ensures r.Sent? ==> r.requestText == Trim(input)
    ensures r.Sent? ==> (r.outcome.Delivered? <==> reply.Json? && reply.success)
    ensures r.Sent? && r.outcome.Delivered? ==> r.outcome.recognizedText == input
    ensures r.Sent? && reply.Json? && !reply.success ==>
      r.outcome == ShowsError("分析出错: " + reply.error.GetOr("未知错误"))
    ensures r.Sent? && reply.Aborted? ==> r.outcome == ShowsError(TimeoutMessage)
  {
    match ValidateInput(input)
    case Invalid(message) => NotSent(message)
    case Valid =>
      var outcome := match reply
        case Aborted => ShowsError(TimeoutMessage)
        case FetchRejected(message) => ShowsError(CaughtMessage(message))
        case NotOk(status, statusText) =>
          ShowsError(CaughtMessage("服务器响应错误: " + NatToString(status) + " " + statusText))
        case BadJson(message) => ShowsError(CaughtMessage(message))
        case Json(success, error) =>
          if success then Delivered(input) else ShowsError("分析出错: " + error.GetOr("未知错误"));
      Sent(Trim(input), outcome)
  }

  /** A text the form lets through is never refused as empty by the
      backend: the trimmed text it sends is not blank. */
  lemma SentTextPassesBackendCheck(input: string, reply: Reply, engine: TextSentiment.Engine)
    requires AnalyzeText(input, reply).Sent?
    ensures TextSentiment.HandleTextRequest(AnalyzeText(input, reply).requestText, engine)
      != Utils.Failure(400, TextSentiment.EmptyTextMessage)
  {
    SentTextIsNotBlank(input, reply);
    BackendAcceptsNonBlank(AnalyzeText(input, reply).requestText, engine);
  }

  lemma BackendAcceptsNonBlank(text: string, engine: TextSentiment.Engine)
    requires !Blank(text)
    ensures TextSentiment.HandleTextRequest(text, engine) != Utils.Failure(400, TextSentiment.EmptyTextMessage)
  {
    if engine.Crashes? {
      assert TextSentiment.AnalysisFailedMessage[2] != TextSentiment.EmptyTextMessage[2];
    }
  }

  lemma SentTextIsNotBlank(input: string, reply: Reply)
    requires AnalyzeText(input, reply).Sent?
    ensures !Blank(AnalyzeText(input, reply).requestText)
  {
    TrimIdempotent(input);
  }
}
