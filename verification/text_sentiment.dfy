/** Text sentiment rules of the backend (backend/modules/text_analysis.py):
    keyword counting, the decision tree that overrides the model's
    prediction, the stand-in classifier used when the model cannot be
    initialised, and the request handler's empty-text check. The neural
    model itself is reduced to the index of its highest-scoring class. */
module TextSentiment {
  import opened Common
  import Utils

  // ---------------------------------------------------------------------
  // Keyword lists, exactly as listed (duplicates included: each entry
  // counts on its own)

  const AngryKeywords: seq<string> :=
    ["生气", "愤怒", "愤悅", "愤恨", "愤愤", "愤愤不平", "怒火", "怒火中烧", "怒不可遗", "怒发冠凸",
     "怒发冠缆", "怒发冲冠", "怒发填膺", "怒形于色", "怒目圆睛", "怒目圆眸", "怒目而视", "怒不可遗",
     "愤愤不平", "愤然作色", "愤不可遗", "愤不可遗", "愤不可抑", "愤不可抑", "讨厌", "厌恶", "厌恶",
     "厌恶", "厌恶", "烦恩", "烦躁", "烦躁不安", "烦躁不安", "烦躁不安", "烦躁不安", "烦躁不安",
     "太令人", "太让人", "完全不", "绝对不", "没法忍受", "心烈头痒", "心急如焼", "心烈头痒",
     "心急如焼", "心急如焼", "心急如焼"]

  const SadKeywords: seq<string> :=
    ["不", "没", "难过", "伤心", "失望", "痛苦", "焦虑", "担心", "害怕", "悲伤", "悲伤", "悲伤",
     "悲伤", "悲伤", "悲伤", "悲伤", "悲伤", "悲伤", "悲伤", "悲伤", "悲伤"]

  const PositiveKeywords: seq<string> :=
    ["喜欢", "开心", "高兴", "快乐", "满意", "感谢", "幸福", "棒", "好", "爱", "美好", "精彩", "幸运",
     "兴奋", "愉快", "愉快", "愉快", "愉快", "愉快", "愉快"]

  const MockNegativeKeywords: seq<string> :=
    ["不", "没", "难过", "伤心", "失望", "痛苦", "焦虑", "担心", "害怕", "讨厌", "生气", "烦恶"]

  const MockPositiveKeywords: seq<string> :=
    ["喜欢", "开心", "高兴", "快乐", "满意", "感谢", "幸福", "棒", "好", "爱"]

  /** Sentiment class `c` is reported as `SentimentLabels[c]`. */
  const SentimentLabels: seq<string> := ["非常消极", "消极", "中性", "积极", "非常积极"]

  type ClassIndex = c: int | 0 <= c < 5

  const Anger := "愤怒"
  const Sadness := "悲伤"
  const Joy := "快乐"
  const Calm := "中性"

  // ---------------------------------------------------------------------
  // Keyword counting

  /** `sum(1 for word in words if word in text)`. */
  function Hits(text: string, words: seq<string>): (n: nat)
    ensures n <= |words|
  {
    if |words| == 0 then 0
    else Hits(text, words[..|words| - 1]) + (if Contains(text, words[|words| - 1]) then 1 else 0)
  }

  /** The positions of the list entries that occur in the text. */
  function HitIndices(text: string, words: seq<string>): set<int>
  {
    set i | 0 <= i < |words| && Contains(text, words[i])
  }

  /** The count is the number of list positions whose word occurs. */
  lemma {:induction false} HitsCountsPositions(text: string, words: seq<string>)
    ensures Hits(text, words) == |HitIndices(text, words)|
  {
    if |words| > 0 {
      var n := |words| - 1;
      var prefix := words[..n];
      HitsCountsPositions(text, prefix);
      var last := if Contains(text, words[n]) then {n} else {};
      assert HitIndices(text, words) == HitIndices(text, prefix) + last by {
        assert forall i :: 0 <= i < n ==> prefix[i] == words[i];
      }
      assert HitIndices(text, prefix) * last == {};
    }
  }

  lemma {:induction false} HitsAtLeastOne(text: string, words: seq<string>, i: int)
    requires 0 <= i < |words| && Contains(text, words[i])
    ensures Hits(text, words) >= 1
  {
    var n := |words| - 1;
    if i < n {
      assert words[..n][i] == words[i];
      HitsAtLeastOne(text, words[..n], i);
    }
  }

  lemma {:induction false} HitsAtLeastTwo(text: string, words: seq<string>, i: int, j: int)
    requires 0 <= i < j < |words| && Contains(text, words[i]) && Contains(text, words[j])
    ensures Hits(text, words) >= 2
  {
    var n := |words| - 1;
    assert words[..n][i] == words[i];
    if j == n {
      HitsAtLeastOne(text, words[..n], i);
    } else {
      assert words[..n][j] == words[j];
      HitsAtLeastTwo(text, words[..n], i, j);
    }
  }

  datatype KeywordCounts = KeywordCounts(angry: nat, negative: nat, positive: nat)

  function CountKeywords(text: string): (k: KeywordCounts)
    ensures k.angry <= |AngryKeywords| && k.negative <= |SadKeywords| && k.positive <= |PositiveKeywords|
  {
    KeywordCounts(Hits(text, AngryKeywords), Hits(text, SadKeywords), Hits(text, PositiveKeywords))
  }

  // ---------------------------------------------------------------------
  // The decision tree

  /** Several anger keywords, or a single one with little else going on. */
  predicate AngerRule(k: KeywordCounts)
  {
    k.angry >= 2 || (k.angry == 1 && k.negative <= 1 && k.positive <= 1)
  }

  datatype Decision = Decision(sentimentClass: ClassIndex, emotionType: string)

  /** The class choice of `analyze_emotion` as written. Anger wins first;
      then more sad than positive keywords gives `min(2, neg - pos)`, that
      is 1 or 2; more positive gives `min(4, 2 + pos - neg)`, 3 or 4; a tie
      keeps the model's class, pulled down to 2 for texts under ten
      characters. */
  function Decide(k: KeywordCounts, textLength: nat, argmax: ClassIndex): (d: Decision)
    ensures AngerRule(k) ==> d == Decision(0, Anger)
    ensures !AngerRule(k) && k.negative > k.positive ==>
      d.emotionType == Sadness && (d.sentimentClass == 1 <==> k.negative - k.positive == 1)
      && (d.sentimentClass == 2 <==> k.negative - k.positive >= 2)
    ensures !AngerRule(k) && k.positive > k.negative ==>
      d.emotionType == Joy && (d.sentimentClass == 3 <==> k.positive - k.negative == 1)
      && (d.sentimentClass == 4 <==> k.positive - k.negative >= 2)
    ensures !AngerRule(k) && k.negative == k.positive ==>
      d.emotionType == Calm && d.sentimentClass <= argmax
      && (textLength >= 10 || argmax <= 2 ==> d.sentimentClass == argmax)
      && (textLength < 10 && argmax > 2 ==> d.sentimentClass == 2)
  {
    if AngerRule(k) then Decision(0, Anger)
    else if k.negative > k.positive then
      Decision(if k.negative - k.positive < 2 then k.negative - k.positive else 2, Sadness)
    else if k.positive > k.negative then
      Decision(if 2 + k.positive - k.negative < 4 then 2 + k.positive - k.negative else 4, Joy)
    else
      Decision(if textLength < 10 && argmax > 2 then 2 else argmax, Calm)
  }

  /** The sad branch as its own comment describes it ("0 or 1, depending on
      the difference"), mirroring the positive branch around the neutral
      class: a difference of one gives 1, a larger one 0. The other
      branches are those of `Decide`. */
  function DecideIntended(k: KeywordCounts, textLength: nat, argmax: ClassIndex): (d: Decision)
    ensures !AngerRule(k) && k.negative > k.positive ==>
      d.emotionType == Sadness && (d.sentimentClass == 1 <==> k.negative - k.positive == 1)
      && (d.sentimentClass == 0 <==> k.negative - k.positive >= 2)
    ensures !(!AngerRule(k) && k.negative > k.positive) ==> d == Decide(k, textLength, argmax)
  {
    if !AngerRule(k) && k.negative > k.positive then
      Decision(if k.negative - k.positive == 1 then 1 else 0, Sadness)
    else Decide(k, textLength, argmax)
  }

  /** The as-written rule labels a clearly sad text as neutral: with no
      anger or positive keyword, a text containing "悲伤" hits that word
      twelve times and gets class 2, whose label is "中性", while its
      emotion type says sadness. */
  lemma SadTextRatedNeutral(text: string, textLength: nat, argmax: ClassIndex)
    requires Hits(text, AngryKeywords) == 0 && Hits(text, PositiveKeywords) == 0
    requires Contains(text, "悲伤")
    ensures var d := Decide(CountKeywords(text), textLength, argmax);
            d.emotionType == Sadness && SentimentLabels[d.sentimentClass] == "中性"
  {
    assert SadKeywords[9] == "悲伤" && SadKeywords[10] == "悲伤";
    HitsAtLeastTwo(text, SadKeywords, 9, 10);
  }

  /** Under the intended rule a sad verdict always carries a negative label. */
  lemma IntendedSadnessIsNegative(k: KeywordCounts, textLength: nat, argmax: ClassIndex)
    ensures var d := DecideIntended(k, textLength, argmax);
            d.emotionType == Sadness ==> SentimentLabels[d.sentimentClass] in {"非常消极", "消极"}
  {
  }

  /** The intended rule treats the two keyword lists symmetrically: swapping
      the sad and positive counts mirrors the class around neutral. */
  lemma IntendedRuleIsSymmetric(k: KeywordCounts, textLength: nat, argmax: ClassIndex)
    requires !AngerRule(k) && k.negative != k.positive
    ensures var m := KeywordCounts(k.angry, k.positive, k.negative);
            DecideIntended(k, textLength, argmax).sentimentClass
              == 4 - DecideIntended(m, textLength, argmax).sentimentClass
  {
  }

  /** The two rules disagree only on sad texts whose sad keywords outnumber
      the positive ones by two or more. */
  lemma IntendedDiffersOnlyOnStrongSadness(k: KeywordCounts, textLength: nat, argmax: ClassIndex)
    ensures DecideIntended(k, textLength, argmax) != Decide(k, textLength, argmax)
      <==> !AngerRule(k) && k.negative - k.positive >= 2
  {
  }

  /** "厌恶" is listed four times among the anger keywords, so any text
      containing it is rated 0 (very negative) whatever else it says. */
  lemma DisgustIsAlwaysAnger(text: string, textLength: nat, argmax: ClassIndex)
    requires Contains(text, "厌恶")
    ensures Decide(CountKeywords(text), textLength, argmax) == Decision(0, Anger)
    ensures DecideIntended(CountKeywords(text), textLength, argmax) == Decision(0, Anger)
  {
    assert AngryKeywords[25] == "厌恶" && AngryKeywords[26] == "厌恶";
    HitsAtLeastTwo(text, AngryKeywords, 25, 26);
  }

  // ---------------------------------------------------------------------
  // The stand-in classifier

  /** `_get_mock_emotion_analysis`'s class: `max(0, min(1, neg - pos))` can
      only be 1 and `min(4, 3 + pos - neg)` only 4, so the stand-in never
      reports 0 or 3. */
  function MockClass(text: string): (c: ClassIndex)
    ensures c == 1 || c == 2 || c == 4
    ensures c == 1 <==> Hits(text, MockNegativeKeywords) > Hits(text, MockPositiveKeywords)
    ensures c == 4 <==> Hits(text, MockPositiveKeywords) > Hits(text, MockNegativeKeywords)
  {
    // With n > p the difference is at least 1, so max(0, min(1, n - p)) is 1;
    // with p > n, 3 + (p - n) is at least 4, so min(4, ...) is 4.
    var n := Hits(text, MockNegativeKeywords);
    var p := Hits(text, MockPositiveKeywords);
    if n > p then 1
    else if p > n then 4
    else 2
  }

  // ---------------------------------------------------------------------
  // Analysis and the request handler

  /** What the sentiment model does for one call: it cannot be initialised
      (the stand-in answers), it predicts a class, or it raises. */
  datatype Engine = InitFails | Ready(argmax: ClassIndex) | Crashes(reason: string)

  datatype TextAnalysis = TextAnalysis(
    text: string,
    sentiment: string,
    sentimentClass: ClassIndex,
    emotionType: Option<string>,
    keywords: Option<KeywordCounts>,
    isMock: bool)

  datatype AnalysisOutcome = Analysed(analysis: TextAnalysis) | AnalysisFailed(message: string)

  const AnalysisErrorPrefix := "分析文本情感时出错: "

  /** The analysis of a text once the engine's behaviour is known, with
      the decision rule as a parameter. */
  function Analyse(text: string, engine: Engine, intended: bool): (r: AnalysisOutcome)
    ensures r.Analysed? <==> !engine.Crashes?
  {
    match engine
    case InitFails =>
      var c := MockClass(text);
      Analysed(TextAnalysis(text, SentimentLabels[c], c, None, None, true))
    case Ready(argmax) =>
      var k := CountKeywords(text);
      var d := if intended then DecideIntended(k, |text|, argmax) else Decide(k, |text|, argmax);
      Analysed(TextAnalysis(text, SentimentLabels[d.sentimentClass], d.sentimentClass,
                            Some(d.emotionType), Some(k), false))
    case Crashes(reason) => AnalysisFailed(AnalysisErrorPrefix + reason)
  }

  /** `analyze_emotion(text)` as written: the stand-in's answer when the
      model cannot be initialised, the decision tree's answer when it
      predicts, an error message when it raises. */
  function AnalyzeEmotion(text: string, engine: Engine): (r: AnalysisOutcome)
    ensures r.Analysed? <==> !engine.Crashes?
    ensures r.Analysed? ==>
      (r.analysis.text == text && r.analysis.sentiment == SentimentLabels[r.analysis.sentimentClass])
    ensures engine.InitFails? ==>
      (r.analysis.isMock && r.analysis.sentimentClass == MockClass(text)
       && r.analysis.emotionType.None? && r.analysis.keywords.None?)
    ensures engine.Ready? ==>
      var d := Decide(CountKeywords(text), |text|, engine.argmax);
      !r.analysis.isMock && r.analysis.keywords == Some(CountKeywords(text))
      && r.analysis.sentimentClass == d.sentimentClass && r.analysis.emotionType == Some(d.emotionType)
    ensures engine.Crashes? ==> r == AnalysisFailed(AnalysisErrorPrefix + engine.reason)
  {
    Analyse(text, engine, false)
  }

  /** `analyze_emotion` with the corrected sad branch of `DecideIntended`. */
  function AnalyzeEmotionIntended(text: string, engine: Engine): (r: AnalysisOutcome)
    ensures r.Analysed? <==> !engine.Crashes?
    ensures r.Analysed? ==>
      (r.analysis.text == text && r.analysis.sentiment == SentimentLabels[r.analysis.sentimentClass])
    ensures engine.Ready? ==>
      var d := DecideIntended(CountKeywords(text), |text|, engine.argmax);
      !r.analysis.isMock && r.analysis.keywords == Some(CountKeywords(text))
      && r.analysis.sentimentClass == d.sentimentClass && r.analysis.emotionType == Some(d.emotionType)
    ensures !engine.Ready? ==> r == AnalyzeEmotion(text, engine)
  {
    Analyse(text, engine, true)
  }

  /** The two analyses differ exactly on predicted texts whose sad keywords
      outnumber the positive ones by two or more, with no anger rule. */
  lemma AnalysesDifferOnlyOnStrongSadness(text: string, engine: Engine)
    ensures AnalyzeEmotionIntended(text, engine) != AnalyzeEmotion(text, engine)
      <==> engine.Ready? && var k := CountKeywords(text); !AngerRule(k) && k.negative - k.positive >= 2
  {
    if engine.Ready? {
      IntendedDiffersOnlyOnStrongSadness(CountKeywords(text), |text|, engine.argmax);
    }
  }

  /** As written, the predicted analysis of "我很悲伤"-like text is labelled
      "中性" while its emotion type is sadness. */
  lemma SadTextReportedNeutral(text: string, argmax: ClassIndex)
    requires Hits(text, AngryKeywords) == 0 && Hits(text, PositiveKeywords) == 0
    requires Contains(text, "悲伤")
    ensures var a := AnalyzeEmotion(text, Ready(argmax)).analysis;
            a.sentiment == "中性" && a.emotionType == Some(Sadness)
    ensures AnalyzeEmotionIntended(text, Ready(argmax)).analysis.sentiment == "非常消极"
  {
    SadTextRatedNeutral(text, |text|, argmax);
    assert SadKeywords[9] == "悲伤" && SadKeywords[10] == "悲伤";
    HitsAtLeastTwo(text, SadKeywords, 9, 10);
  }

  const EmptyTextMessage := "文本不能为空"
  const AnalysisFailedMessage := "文本分析失败，请检查输入"

  /** `handle_text_analysis_request(text)`: empty or whitespace-only text is
      refused before any analysis; a failed analysis is reported with a
      generic message; otherwise the analysis is returned. */
  function HandleTextRequest(text: string, engine: Engine): (r: Utils.Reply<TextAnalysis>)
    ensures Blank(text) ==> r == Utils.Failure(400, EmptyTextMessage)
    ensures !Blank(text) && engine.Crashes? ==> r == Utils.Failure(400, AnalysisFailedMessage)
    ensures !Blank(text) && !engine.Crashes? ==> r == Utils.Success(AnalyzeEmotion(text, engine).analysis)
    ensures r.Success? ==>
      r.payload.text == text && r.payload.sentiment == SentimentLabels[r.payload.sentimentClass]
  {
    if text == [] || Trim(text) == [] then Utils.ErrorResponse(EmptyTextMessage)
    else match AnalyzeEmotion(text, engine)
      case AnalysisFailed(_) => Utils.ErrorResponse(AnalysisFailedMessage)
      case Analysed(a) => Utils.Success(a)
  }
}
