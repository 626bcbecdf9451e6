/** The list of past analyses (frontend-mui/src/components/HistoryRecord.js):
    which label, colour and icon a record is shown with, which records are
    expanded, and the confirmation before the list is cleared. Timestamps
    are shown through the browser's locale formatting and are left out. */
module HistoryView {
  import opened Common
  import TextSentiment
  import CameraSession

  /** The `video_emotion` member of a record: its `details.dominant`, which
      the camera aggregate leaves undefined for an empty session. */
  datatype VideoDetails = VideoDetails(dominant: Option<string>)

  /** A history record as the list reads it. An absent or empty `result`
      is the empty string. */
  datatype Item = Item(
    result: string,
    combinedResult: string,
    videoEmotion: Option<VideoDetails>,
    textEmotion: Option<string>)

  /** `item.result || item.combined_result`. */
  function Label(item: Item): (l: string)
    ensures item.result != [] ==> l == item.result
    ensures item.result == [] ==> l == item.combinedResult
  {
    if item.result != [] then item.result else item.combinedResult
  }

  // ---------------------------------------------------------------------
  // Colours and icons

  const VeryPositiveColour := "#64ffda"
  const PositiveColour := "#03dac6"
  const GreyColour := "#9e9e9e"
  const NegativeColour := "#ffb74d"
  const VeryNegativeColour := "#cf6679"

  /** `getEmotionColor`: a colour for each of the five sentiment labels,
      grey for anything else. */
  function EmotionColour(result: string): (c: string)
    ensures c in {VeryPositiveColour, PositiveColour, GreyColour, NegativeColour, VeryNegativeColour}
  {
    match result
    case "非常积极" => VeryPositiveColour
    case "积极" => PositiveColour
    case "中性" => GreyColour
    case "消极" => NegativeColour
    case "非常消极" => VeryNegativeColour
    case _ => GreyColour
  }

  /** The five face icons of `getEmotionIcon`. */
  datatype Icon = VerySatisfied | Satisfied | NeutralFace | Dissatisfied | VeryDissatisfied

  /** `getEmotionIcon`: the icon for a label, the neutral face by default. */
  function EmotionIcon(result: string): (i: Icon)
    ensures i == NeutralFace <==> result !in {"非常积极", "积极", "消极", "非常消极"}
  {
    match result
    case "非常积极" => VerySatisfied
    case "积极" => Satisfied
    case "中性" => NeutralFace
    case "消极" => Dissatisfied
    case "非常消极" => VeryDissatisfied
    case _ => NeutralFace
  }

  /** The icons follow the sentiment classes from the most dissatisfied
      face for class 0 to the most satisfied for class 4. */
  lemma IconsFollowSentimentClass(c: int)
    requires 0 <= c < 5
    ensures EmotionIcon(TextSentiment.SentimentLabels[c])
      == [VeryDissatisfied, Dissatisfied, NeutralFace, Satisfied, VerySatisfied][c]
  {
    var labels := TextSentiment.SentimentLabels;
    assert labels[0] == "非常消极" && labels[1] == "消极" && labels[2] == "中性";
    assert labels[3] == "积极" && labels[4] == "非常积极";
  }

  /** The tint each icon is drawn with. */
  function IconTint(i: Icon): string
  {
    match i
    case VerySatisfied => VeryPositiveColour
    case Satisfied => PositiveColour
    case NeutralFace => GreyColour
    case Dissatisfied => NegativeColour
    case VeryDissatisfied => VeryNegativeColour
  }

  /** The icon and the label text beside it always have the same colour. */
  lemma IconMatchesColour(result: string)
    ensures IconTint(EmotionIcon(result)) == EmotionColour(result)
  {
  }

  /** The five sentiment labels of the text model get five different
      colours, and any other label is drawn like the neutral one. */
  lemma ColoursTellSentimentsApart(i: int, j: int, other: string)
    requires 0 <= i < 5 && 0 <= j < 5 && i != j
    requires other !in TextSentiment.SentimentLabels
    ensures EmotionColour(TextSentiment.SentimentLabels[i]) != EmotionColour(TextSentiment.SentimentLabels[j])
    ensures EmotionColour(other) == EmotionColour(TextSentiment.SentimentLabels[2])
  {
    var labels := TextSentiment.SentimentLabels;
    assert labels[0] == "非常消极" && labels[1] == "消极" && labels[2] == "中性";
    assert labels[3] == "积极" && labels[4] == "非常积极";
    assert other != labels[0] && other != labels[1] && other != labels[2];
    assert other != labels[3] && other != labels[4];
  }

  // ---------------------------------------------------------------------
  // A row of the list

  /** What a row shows: label, colour, icon and analysis type, and, when
      expanded, the main expression's Chinese name (for a video record)
      and the text sentiment (for a record with one). */
  datatype Row = Row(
    caption: string,
    colour: string,
    icon: Icon,
    kind: string,
    faceZh: Option<string>,
    text: Option<string>)

  const VideoKind := "视频分析"
  const TextKind := "文本分析"

  function ShowRow(item: Item): (r: Row)
    ensures r.caption == Label(item)
    ensures r.colour == EmotionColour(r.caption) == IconTint(r.icon)
    ensures r.kind == VideoKind <==> item.videoEmotion.Some?
    ensures r.kind in {VideoKind, TextKind}
    ensures r.faceZh.Some? <==> item.videoEmotion.Some?
    ensures item.videoEmotion.Some? && item.videoEmotion.value.dominant.Some? ==>
      r.faceZh == Some(CameraSession.ChineseName(item.videoEmotion.value.dominant.value))
    ensures item.videoEmotion.Some? && item.videoEmotion.value.dominant.None? ==>
      r.faceZh == Some(CameraSession.UnknownZh)
    ensures r.text == item.textEmotion
  {
    var l := Label(item);
    IconMatchesColour(l);
    var face := match item.videoEmotion
      case None => None
      case Some(v) => Some(match v.dominant
        case None => CameraSession.UnknownZh
        case Some(d) => CameraSession.ChineseName(d));
    Row(l, EmotionColour(l), EmotionIcon(l), if item.videoEmotion.Some? then VideoKind else TextKind,
        face, item.textEmotion)
  }

  /** The record the camera view saves for a session's aggregate. */
  function SessionItem(r: CameraSession.SessionResult): (item: Item)
    ensures item.result == r.result && item.combinedResult == r.combinedResult
    ensures item.videoEmotion == Some(VideoDetails(r.dominant))
    ensures item.textEmotion == Some(r.textResult)
  {
    Item(r.result, r.combinedResult, Some(VideoDetails(r.dominant)), Some(r.textResult))
  }

  /** A camera session is listed as a video analysis under its sentiment
      category, in that category's colour, with the same Chinese name for
      the main expression as the camera view showed. */
  lemma SessionRowShowsCategory(h: seq<CameraSession.Frame>)
    ensures var a := CameraSession.Aggregate(h);
            var row := ShowRow(SessionItem(a));
            row.kind == VideoKind
            && row.caption == a.result
            && row.caption in {CameraSession.Negative, CameraSession.Positive, CameraSession.Neutral}
            && (row.colour == GreyColour <==> row.caption == CameraSession.Neutral)
            && row.faceZh == Some(a.dominantZh)
            && row.text == Some(CameraSession.Neutral)
  {
    var a := CameraSession.Aggregate(h);
    assert a.dominant.Some? ==> a.result == CameraSession.Category(a.dominant.value);
    SessionRow(a);
  }

  lemma SessionRow(a: CameraSession.SessionResult)
    requires a.result == a.combinedResult
    requires a.result in {CameraSession.Negative, CameraSession.Positive, CameraSession.Neutral}
    requires a.textResult == CameraSession.Neutral
    requires a.dominant.None? ==> a.dominantZh == CameraSession.UnknownZh
    requires a.dominant.Some? ==> a.dominantZh == CameraSession.ChineseName(a.dominant.value)
    ensures var row := ShowRow(SessionItem(a));
            row.kind == VideoKind
            && row.caption == a.result
            && (row.colour == GreyColour <==> row.caption == CameraSession.Neutral)
            && row.faceZh == Some(a.dominantZh)
            && row.text == Some(CameraSession.Neutral)
  {
    assert a.result != [];
  }

  // ---------------------------------------------------------------------
  // Expanding rows

  /** `expandedItems`: row index to a flag; a missing index is collapsed. */
  type Expanded = map<nat, bool>

  predicate IsExpanded(m: Expanded, id: nat)
  {
    id in m && m[id]
  }

  /** `toggleExpand(id)`: the row flips, every other row stays as it was. */
  function Toggle(m: Expanded, id: nat): (r: Expanded)
    ensures IsExpanded(r, id) == !IsExpanded(m, id)
    ensures id in r
    ensures forall k :: k != id ==> (k in r <==> k in m)
    ensures forall k :: k != id && k in m ==> r[k] == m[k]
  {
    m[id := !IsExpanded(m, id)]
  }

  /** Toggling a row twice shows every row as it was. */
  lemma ToggleTwiceRestores(m: Expanded, id: nat, k: nat)
    ensures IsExpanded(Toggle(Toggle(m, id), id), k) == IsExpanded(m, k)
  {
  }

  /** Toggles of different rows commute. */
  lemma TogglesCommute(m: Expanded, a: nat, b: nat, k: nat)
    ensures IsExpanded(Toggle(Toggle(m, a), b), k) == IsExpanded(Toggle(Toggle(m, b), a), k)
  {
  }

  // ---------------------------------------------------------------------
  // Clearing

  /** The list's chrome: the clear button appears only for a non-empty
      history, the "暂无历史记录" placeholder only for an empty one. */
  datatype Chrome = Chrome(clearButton: bool, placeholder: bool)

  function ShowChrome<T>(history: seq<T>): (c: Chrome)
    ensures c.clearButton <==> |history| > 0
    ensures c.placeholder <==> !c.clearButton
  {
    Chrome(|history| > 0, |history| == 0)
  }

  /** The clear button, the dialog's two buttons and closing it. The
      dialog's buttons exist only while it is open. */
  datatype DialogEvent = AskClear | ConfirmClear | CancelClear

  /** The dialog after one event, and whether `onClearHistory` was called. */
  datatype DialogStep = DialogStep(open: bool, cleared: bool)

  function Dialog(open: bool, e: DialogEvent): (r: DialogStep)
    ensures r.cleared <==> open && e.ConfirmClear?
    ensures r.open <==> e.AskClear? || (open && !e.ConfirmClear? && !e.CancelClear?)
  {
    match e
    case AskClear => DialogStep(true, false)
    case ConfirmClear => if open then DialogStep(false, true) else DialogStep(open, false)
    case CancelClear => DialogStep(false, false)
  }

  /** How many times a run of events clears the history. */
  function Clears(open: bool, events: seq<DialogEvent>): (n: nat)
    ensures n <= |events|
    decreases |events|
  {
    if events == [] then 0
    else
      var step := Dialog(open, events[0]);
      (if step.cleared then 1 else 0) + Clears(step.open, events[1..])
  }

  function Asks(events: seq<DialogEvent>): (n: nat)
    decreases |events|
  {
    if events == [] then 0 else (if events[0].AskClear? then 1 else 0) + Asks(events[1..])
  }

  /** Every clearing is confirmed in a dialog opened for it: a run starting
      with the dialog closed clears at most as often as it asks. */
  lemma {:induction false} ClearsNeedAsks(open: bool, events: seq<DialogEvent>)
    ensures Clears(open, events) <= Asks(events) + (if open then 1 else 0)
    decreases |events|
  {
    if events != [] {
      var step := Dialog(open, events[0]);
      ClearsNeedAsks(step.open, events[1..]);
    }
  }
}
