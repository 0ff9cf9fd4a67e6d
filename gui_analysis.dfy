/** The guards analyze_with_gpt of gui_app.py applies before it contacts the
    language model. The chat call is an oracle parameter: the reply text, or the
    error it raised. */
module GuiAnalysis {
  import opened Text
  import EnvConfig

  const NoKeyMessage := "OpenAI API 키가 설정되지 않았습니다."
  const NoTitlesMessage := "분석할 블로그 제목이 없습니다."
  const FailurePrefix := "GPT 분석 중 오류 발생: "

  /** What the chat call gave: the reply's text, or the error it raised. */
  datatype ChatOutcome = Replied(content: string) | Raised(error: string)

  /** The returned text, and whether the chat API was asked at all. */
  datatype Analysis = Analysis(text: string, asked: bool)

  /** analyze_with_gpt(titles, descriptions, query, openai_api_key, analysis_type). */
  function AnalyzeWithGpt(titles: seq<string>, key: Option<string>, chat: ChatOutcome): (r: Analysis)
    ensures r.asked <==> EnvConfig.Truthy(key) && titles != []
    ensures !EnvConfig.Truthy(key) ==> r.text == NoKeyMessage
    ensures EnvConfig.Truthy(key) && titles == [] ==> r.text == NoTitlesMessage
    ensures r.asked && chat.Replied? ==> r.text == chat.content
    ensures r.asked && chat.Raised? ==> r.text == FailurePrefix + chat.error
  {
    if !EnvConfig.Truthy(key) then Analysis(NoKeyMessage, false)
    else if titles == [] then Analysis(NoTitlesMessage, false)
    else
      match chat
      case Replied(content) => Analysis(content, true)
      case Raised(error) => Analysis(FailurePrefix + error, true)
  }

  /** When a guard fires, the reply of the chat API makes no difference. */
  lemma GuardsIgnoreChat(titles: seq<string>, key: Option<string>, c1: ChatOutcome, c2: ChatOutcome)
    requires !EnvConfig.Truthy(key) || titles == []
    ensures AnalyzeWithGpt(titles, key, c1) == AnalyzeWithGpt(titles, key, c2)
  {
  }

  /** A failed call is reported under its own prefix, which neither guard message
      carries. */
  lemma FailureDistinct(titles: seq<string>, key: Option<string>, error: string)
    requires EnvConfig.Truthy(key) && titles != []
    ensures var t := AnalyzeWithGpt(titles, key, Raised(error)).text;
      StartsWith(t, FailurePrefix) && t != NoKeyMessage && t != NoTitlesMessage
  {
    var t := AnalyzeWithGpt(titles, key, Raised(error)).text;
    assert t[..|FailurePrefix|] == FailurePrefix;
    assert t[0] == 'G';
  }
}
