/** The console front end NAVER_BLOG_SERACH.py: the analysis prompt it builds for the
    language model (create_blog_analysis_prompt) and the menu replies that pick the
    search order and the analysis type in its main loop. */
module NaverConsole {
  import opened Text
  import Numbered

  /** One part of a prompt template: fixed wording, the search keyword, or the
      numbered block of titles. */
  datatype Piece = Wording(text: string) | Keyword | TitleBlock

  /** The fixed wording between the placeholders of the three templates. The
      comprehensive template names the keyword twice (before and after the title
      block), the trend and SEO templates once, before it. */
  datatype Wordings = Wordings(
    comprehensive: (string, string, string, string),
    trend: (string, string, string),
    seo: (string, string, string))

  const AnalysisTypes: set<string> := {"comprehensive", "trend", "seo"}

  /** The template the analysis type selects; None for any other type, where the
      source leaves `prompt` unbound and the final `return prompt` raises. */
  function Template(analysisType: string, w: Wordings): (r: Option<seq<Piece>>)
    ensures r.Some? <==> analysisType in AnalysisTypes
    ensures r.Some? ==> Keyword in r.value && TitleBlock in r.value
  {
    if analysisType == "comprehensive" then
      Some([Wording(w.comprehensive.0), Keyword, Wording(w.comprehensive.1), TitleBlock,
            Wording(w.comprehensive.2), Keyword, Wording(w.comprehensive.3)])
    else if analysisType == "trend" then
      Some([Wording(w.trend.0), Keyword, Wording(w.trend.1), TitleBlock, Wording(w.trend.2)])
    else if analysisType == "seo" then
      Some([Wording(w.seo.0), Keyword, Wording(w.seo.1), TitleBlock, Wording(w.seo.2)])
    else None
  }

  function PieceText(p: Piece, query: string, block: string): string
  {
    match p
    case Wording(t) => t
    case Keyword => query
    case TitleBlock => block
  }

  /** The f-string: the pieces' texts in order. */
  function Render(pieces: seq<Piece>, query: string, block: string): string
  {
    if pieces == [] then [] else PieceText(pieces[0], query, block) + Render(pieces[1..], query, block)
  }

  /** titles_text: "{i+1}. {title}" per title, joined by newlines. */
  function TitlesText(titles: seq<string>): string
  {
    Join("\n", Numbered.Enumerate(titles))
  }

  /** create_blog_analysis_prompt(query, titles, analysis_type); None where the source
      raises. */
  function AnalysisPrompt(query: string, titles: seq<string>, analysisType: string, w: Wordings): (r: Option<string>)
    ensures r.Some? <==> analysisType in AnalysisTypes
  {
    match Template(analysisType, w)
    case None => None
    case Some(t) => Some(Render(t, query, TitlesText(titles)))
  }

  lemma ContainsAfter(a: string, s: string, sub: string)
    requires Contains(s, sub)
    ensures Contains(a + s, sub)
  {
    var i := ContainsWitness(s, sub);
    assert (a + s)[|a| + i..|a| + i + |sub|] == s[i..i + |sub|];
    ContainsAt(a + s, sub, |a| + i);
  }

  /** A rendered template contains the text of each of its pieces. */
  lemma {:induction false} RenderContains(pieces: seq<Piece>, query: string, block: string, p: Piece)
    requires p in pieces
    ensures Contains(Render(pieces, query, block), PieceText(p, query, block))
  {
    var rest := Render(pieces[1..], query, block);
    if pieces[0] == p {
      ContainsMiddle([], PieceText(p, query, block), rest);
      assert [] + PieceText(p, query, block) + rest == Render(pieces, query, block);
    } else {
      RenderContains(pieces[1..], query, block, p);
      ContainsAfter(PieceText(pieces[0], query, block), rest, PieceText(p, query, block));
    }
  }

  /** Every prompt the function returns names the keyword and carries the whole
      numbered title block. */
  lemma PromptMentions(query: string, titles: seq<string>, analysisType: string, w: Wordings)
    requires analysisType in AnalysisTypes
    ensures var p := AnalysisPrompt(query, titles, analysisType, w).value;
      Contains(p, query) && Contains(p, TitlesText(titles))
  {
    var t := Template(analysisType, w).value;
    RenderContains(t, query, TitlesText(titles), Keyword);
    RenderContains(t, query, TitlesText(titles), TitleBlock);
  }

  lemma EnumerateLineOneLine(i: nat, title: string)
    requires '\n' !in title
    ensures '\n' !in Numbered.EnumerateLine(i, title)
  {
    var num := NatToString(i + 1);
    assert Numbered.EnumerateLine(i, title) == num + ". " + title;
    assert '\n' !in num by {
      forall k | 0 <= k < |num| ensures num[k] != '\n' {
        assert IsDigit(num[k]);
      }
    }
  }

  /** The title block reads back, line by line, as the 1-based enumeration of the
      titles when no title spans lines; no titles give an empty block. */
  lemma TitlesTextLines(titles: seq<string>)
    requires forall k :: 0 <= k < |titles| ==> '\n' !in titles[k]
    ensures titles == [] ==> TitlesText(titles) == []
    ensures titles != [] ==>
      var lines := Split(TitlesText(titles), '\n');
      |lines| == |titles| &&
      forall k :: 0 <= k < |titles| ==> lines[k] == NatToString(k + 1) + ". " + titles[k]
  {
    var lines := Numbered.Enumerate(titles);
    if titles != [] {
      forall k | 0 <= k < |lines| ensures '\n' !in lines[k] {
        EnumerateLineOneLine(k, titles[k]);
      }
      SplitJoin(lines, '\n');
    }
  }

  /** sort_method: '2' (after strip) asks for accuracy order, anything else for date. */
  function SortMethod(reply: string): (r: string)
    ensures r == "sim" <==> Strip(reply) == "2"
    ensures r == "date" <==> Strip(reply) != "2"
  {
    if Strip(reply) != "2" then "date" else "sim"
  }

  /** The analysis type the menu reply selects; None for '4', which skips the analysis.
      Unknown replies fall back to the comprehensive analysis. */
  function AnalysisChoice(reply: string): (r: Option<string>)
    ensures r.None? <==> Strip(reply) == "4"
    ensures r.Some? ==> r.value in AnalysisTypes
    ensures Strip(reply) == "2" ==> r == Some("trend")
    ensures Strip(reply) == "3" ==> r == Some("seo")
    ensures Strip(reply) != "2" && Strip(reply) != "3" && Strip(reply) != "4" ==> r == Some("comprehensive")
  {
    var c := Strip(reply);
    if c == "4" then None
    else if c == "1" then Some("comprehensive")
    else if c == "2" then Some("trend")
    else if c == "3" then Some("seo")
    else Some("comprehensive")
  }

  /** The menu never selects a type for which the prompt builder raises. */
  lemma MenuChoiceHasPrompt(reply: string, query: string, titles: seq<string>, w: Wordings)
    requires AnalysisChoice(reply).Some?
    ensures AnalysisPrompt(query, titles, AnalysisChoice(reply).value, w).Some?
  {
  }
}
