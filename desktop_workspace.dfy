/** The state the desktop application (desktop_gui.py, class BlogAnalyzerApp) keeps
    between its stages: the credentials read at start-up, the last search and its
    columns, the analysis, the generated-title list, the last article and its images.
    Each stage is started from the UI; the model calls it with the UI's values and
    with the network calls as oracle parameters (None: the call raised). */
module DesktopWorkspace {
  import opened Text
  import Extraction
  import EnvConfig
  import TitleParsing
  import ImagePrompts

  /** What search_naver_blog returned: an empty (falsy) reply, one without `items`,
      or the items. */
  datatype SearchBody = Falsy | NoItems | Items(items: seq<Extraction.Item>)

  /** How run_analysis ended: completed, or the step whose failure it reported. */
  datatype AnalysisEnd = Completed | SearchFailed | NoResults | NoTitles | AnalysisFailed

  /** How generate_new_titles ended. */
  datatype TitlesEnd = NotAnalysed | GenerationFailed | Listed

  /** How generate_blog_images ended. */
  datatype ImagesEnd = NoBlog | Reshown | NoPrompts | BatchFailed | Saved

  /** last_generated_blog; `content` is None when the model's reply carried no
      message content. */
  datatype GeneratedBlog = GeneratedBlog(title: string, content: Option<string>, keyword: string)

  // ---------------------------------------------------------------- folder names

  const UnsafeFolderChars := "<>:\"/\\|?*"

  /** s without the characters of bad (re.sub of a character class with ''): exactly
      the characters of s outside bad survive, and a single character survives
      exactly when it is outside bad. */
  function WithoutChars(s: string, bad: string): (r: string)
    ensures |r| <= |s|
    ensures forall i :: 0 <= i < |r| ==> r[i] in s && r[i] !in bad
    ensures forall i :: 0 <= i < |s| && s[i] !in bad ==> s[i] in r
    ensures |s| == 1 ==> (r == s <==> s[0] !in bad) && (r == [] <==> s[0] in bad)
  {
    if s == [] then []
    else
      var rest := WithoutChars(s[1..], bad);
      assert forall i :: 0 <= i < |rest| ==> rest[i] in s;
      assert forall i :: 1 <= i < |s| ==> s[i] == s[1..][i - 1];
      if s[0] in bad then rest else [s[0]] + rest
  }

  /** The filter works character by character: filtering a concatenation filters
      each part. With the one-character case this fixes the result on every input. */
  lemma {:induction false} WithoutCharsAppend(a: string, b: string, bad: string)
    ensures WithoutChars(a + b, bad) == WithoutChars(a, bad) + WithoutChars(b, bad)
  {
    if a != [] {
      assert (a + b)[1..] == a[1..] + b;
      WithoutCharsAppend(a[1..], b, bad);
    } else {
      assert a + b == b;
    }
  }

  /** The folder-name stem of create_blog_folder: the first five characters of the
      title without the characters Windows forbids, stripped, or "untitled". */
  function SafeTitle(title: string): (r: string)
    ensures r != [] && |r| <= 8
    ensures r == "untitled" || (|r| <= 5 && NoLeadingSpace(r) && NoTrailingSpace(r) &&
                                forall i :: 0 <= i < |r| ==> r[i] !in UnsafeFolderChars)
  {
    var cleaned := WithoutChars(SliceTo(title, 5), UnsafeFolderChars);
    var safe := Strip(cleaned);
    StripSubsequence(cleaned);
    if safe == [] then "untitled" else safe
  }

  /** The stem is "untitled" exactly when the first five characters of the title are
      all forbidden or whitespace; otherwise it is those characters without the
      forbidden ones, stripped. */
  lemma SafeTitleValue(title: string)
    ensures SafeTitle(title) == "untitled" <==> BlankStem(SliceTo(title, 5))
    ensures SafeTitle(title) != "untitled" ==>
      SafeTitle(title) == Strip(WithoutChars(SliceTo(title, 5), UnsafeFolderChars))
  {
    var p := SliceTo(title, 5);
    var cleaned := WithoutChars(p, UnsafeFolderChars);
    StripEmpty(cleaned);
    CleanedAllSpace(p, cleaned);
  }

  /** A forbidden character inside the stem is dropped and the rest closes up. */
  lemma SafeTitleDropsSlash()
    ensures SafeTitle("a/b") == "ab"
  {
    assert SliceTo("a/b", 5) == "a/b";
    assert "a/b" == "a" + ("/" + "b");
    WithoutCharsAppend("a", "/" + "b", UnsafeFolderChars);
    WithoutCharsAppend("/", "b", UnsafeFolderChars);
    assert 'a' !in UnsafeFolderChars && 'b' !in UnsafeFolderChars && '/' in UnsafeFolderChars;
    assert WithoutChars("a/b", UnsafeFolderChars) == "ab";
    StripUnchanged("ab");
  }

  /** Every character is forbidden in a folder name or is whitespace. */
  predicate BlankStem(p: string)
  {
    forall i :: 0 <= i < |p| ==> p[i] in UnsafeFolderChars || IsSpace(p[i])
  }

  /** What survives the filter is all whitespace exactly when every character of the
      input is forbidden or whitespace. */
  lemma CleanedAllSpace(p: string, cleaned: string)
    requires cleaned == WithoutChars(p, UnsafeFolderChars)
    ensures AllSpace(cleaned) <==> BlankStem(p)
  {
    if AllSpace(cleaned) {
      forall i | 0 <= i < |p| && p[i] !in UnsafeFolderChars ensures IsSpace(p[i]) {
        assert p[i] in cleaned;
      }
    }
  }

  /** Strip keeps a contiguous part of its input. */
  lemma StripSubsequence(s: string)
    ensures |Strip(s)| <= |s| && forall i :: 0 <= i < |Strip(s)| ==> Strip(s)[i] in s
  {
    var k := StripSlice(s);
    assert forall i :: 0 <= i < |Strip(s)| ==> Strip(s)[i] == s[k + i];
  }

  /** A title whose first five characters are all safe and not surrounded by
      whitespace keeps them as its stem. */
  lemma {:induction false} SafeTitleOfPlain(title: string)
    requires title != []
    requires var p := SliceTo(title, 5);
      NoLeadingSpace(p) && NoTrailingSpace(p) && forall i :: 0 <= i < |p| ==> p[i] !in UnsafeFolderChars
    ensures SafeTitle(title) == SliceTo(title, 5)
  {
    var p := SliceTo(title, 5);
    WithoutSafeChars(p, UnsafeFolderChars);
    assert p[0] == title[0];
    StripUnchanged(p);
  }

  lemma {:induction false} WithoutSafeChars(s: string, bad: string)
    requires forall i :: 0 <= i < |s| ==> s[i] !in bad
    ensures WithoutChars(s, bad) == s
  {
    if s != [] {
      WithoutSafeChars(s[1..], bad);
    }
  }

  lemma StripUnchanged(s: string)
    requires NoLeadingSpace(s) && NoTrailingSpace(s)
    ensures Strip(s) == s
  {
  }

  /** The folder name create_blog_folder makes for a title at a time stamp. */
  function FolderName(title: string, timestamp: string): string
  {
    SafeTitle(title) + "_" + timestamp
  }

  // ---------------------------------------------------------------- the application

  class Workspace {
    var credentials: EnvConfig.Credentials
    /** self.search_result; None until a search has returned. */
    var searchResult: Option<SearchBody>
    var titles: seq<string>
    var descriptions: seq<string>
    /** self.analysis_result; None when analyze_with_gpt returned None. */
    var analysisResult: Option<string>
    /** The entries of the generated-titles list box. */
    var shownTitles: seq<string>
    var lastGeneratedBlog: Option<GeneratedBlog>
    var lastGeneratedImages: seq<ImagePrompts.ImageRecord>
    /** The folder the last image batch was saved in (its name under blog_data). */
    var blogFolderPath: Option<string>

    /** __init__: empty stages, and the credentials load_env_variables reads from the
        .env file (all None when it is missing). */
    constructor(envFile: Option<seq<string>>)
      ensures envFile.None? ==> credentials == EnvConfig.NoCredentials
      ensures envFile.Some? ==> credentials == EnvConfig.Lookup3(EnvConfig.EnvMap(envFile.value))
      ensures searchResult.None? && titles == [] && descriptions == [] && analysisResult == Some("")
      ensures shownTitles == [] && lastGeneratedBlog.None? && lastGeneratedImages == [] && blogFolderPath.None?
    {
      var c := EnvConfig.LoadLenient(envFile);
      credentials := c;
      searchResult := None;
      titles := [];
      descriptions := [];
      analysisResult := Some("");
      shownTitles := [];
      lastGeneratedBlog := None;
      lastGeneratedImages := [];
      blogFolderPath := None;
    }

    /** What run_analysis leaves behind for a keyword: each field holds what its step
        returned, or its old value when the run stopped before that step. */
    twostate predicate Analysed(keyword: string, analysisType: string, search: Option<SearchBody>,
                                analyze: (seq<string>, seq<string>, string, string) -> Option<Option<string>>,
                                end: AnalysisEnd)
      reads this
    {
      && credentials == old(credentials) && shownTitles == old(shownTitles)
      && lastGeneratedBlog == old(lastGeneratedBlog) && lastGeneratedImages == old(lastGeneratedImages)
      && blogFolderPath == old(blogFolderPath)
      && (!EnvConfig.Truthy(credentials.clientId) || !EnvConfig.Truthy(credentials.clientSecret) || search.None? ==>
            end == SearchFailed && searchResult == old(searchResult) &&
            titles == old(titles) && descriptions == old(descriptions) && analysisResult == old(analysisResult))
      && (end != SearchFailed ==> searchResult == search)
      && (end == NoResults <==> end != SearchFailed && search.value.Falsy?)
      && (end == NoResults ==>
            titles == old(titles) && descriptions == old(descriptions) && analysisResult == old(analysisResult))
      && (end in {NoTitles, AnalysisFailed, Completed} ==>
            |titles| == |descriptions| &&
            var items := if search.value.Items? then search.value.items else [];
            Extraction.Kept(items) == Extraction.Zip(titles, descriptions))
      && (end == NoTitles <==> end in {NoTitles, AnalysisFailed, Completed} && titles == [])
      && (end in {NoTitles, AnalysisFailed} ==> analysisResult == old(analysisResult))
      && (end in {AnalysisFailed, Completed} ==>
            (end == Completed <==> analyze(titles, descriptions, keyword, analysisType).Some?))
      && (end == Completed ==> analysisResult == analyze(titles, descriptions, keyword, analysisType).value)
    }

    /** start_analysis: a blank keyword only warns; otherwise run_analysis runs on the
        stripped keyword. */
    method StartAnalysis(entry: string, analysisType: string, search: Option<SearchBody>,
                         analyze: (seq<string>, seq<string>, string, string) -> Option<Option<string>>)
      returns (end: Option<AnalysisEnd>)
      modifies this
      ensures Strip(entry) == [] ==> end.None? && unchanged(this)
      ensures Strip(entry) != [] ==> end.Some? && Analysed(Strip(entry), analysisType, search, analyze, end.value)
    {
      var keyword := Strip(entry);
      if keyword == [] {
        return None;
      }
      var e := RunAnalysis(keyword, analysisType, search, analyze);
      return Some(e);
    }

    /** run_analysis: search, extract, analyse. Each field is assigned as soon as its
        step returns, so a later failure leaves the earlier steps' results in place. */
    method RunAnalysis(keyword: string, analysisType: string, search: Option<SearchBody>,
                       analyze: (seq<string>, seq<string>, string, string) -> Option<Option<string>>)
      returns (end: AnalysisEnd)
      modifies this
      ensures Analysed(keyword, analysisType, search, analyze, end)
    {
      if !EnvConfig.Truthy(credentials.clientId) || !EnvConfig.Truthy(credentials.clientSecret) || search.None? {
        return SearchFailed;
      }
      searchResult := search;
      var body := search.value;
      if body.Falsy? {
        return NoResults;
      }
      var columns := Extraction.ExtractFiltering(if body.Items? then Some(body.items) else None);
      titles, descriptions := columns.titles, columns.descriptions;
      var items := if body.Items? then body.items else [];
      assert Extraction.Kept(items) == Extraction.Zip(titles, descriptions);
      if titles == [] {
        return NoTitles;
      }
      var a := analyze(titles, descriptions, keyword, analysisType);
      if a.None? {
        return AnalysisFailed;
      }
      analysisResult := a.value;
      return Completed;
    }

    /** generate_new_titles: refused before an analysis; otherwise the list box is
        refilled from the model's answer, unless the call raised. */
    method GenerateNewTitles(entry: string, n: int, generate: (string, string, int) -> Option<Option<string>>)
      returns (end: TitlesEnd)
      modifies this
      ensures !EnvConfig.Truthy(old(analysisResult)) <==> end == NotAnalysed
      ensures end != Listed ==> unchanged(this)
      ensures EnvConfig.Truthy(old(analysisResult)) ==>
        var answer := generate(old(analysisResult).value, Strip(entry), n);
        (end == Listed <==> answer.Some?) &&
        (answer.Some? ==>
           shownTitles == (if answer.value.None? then [] else TitleParsing.DesktopTitles(answer.value.value)))
      ensures credentials == old(credentials) && searchResult == old(searchResult)
      ensures titles == old(titles) && descriptions == old(descriptions) && analysisResult == old(analysisResult)
      ensures lastGeneratedBlog == old(lastGeneratedBlog) && lastGeneratedImages == old(lastGeneratedImages)
      ensures blogFolderPath == old(blogFolderPath)
    {
      if !EnvConfig.Truthy(analysisResult) {
        return NotAnalysed;
      }
      var answer := generate(analysisResult.value, Strip(entry), n);
      if answer.None? {
        return GenerationFailed;
      }
      if answer.value.None? {
        shownTitles := [];
      } else {
        shownTitles := TitleParsing.ParseDesktopTitles(answer.value.value);
      }
      return Listed;
    }

    /** generate_blog_content: the reply is remembered, with the keyword currently in
        the entry, for the image stage. `write` is None when the call raised and
        Some(None) when the reply carried no content, which is stored as it is. */
    method GenerateBlogContent(entry: string, title: string, promptType: string, additionalPrompt: string,
                               write: (string, string, string, string) -> Option<Option<string>>)
      returns (written: bool)
      modifies this
      ensures var content := write(title, Strip(entry), promptType, additionalPrompt);
        written == content.Some? &&
        lastGeneratedBlog == (if content.Some? then Some(GeneratedBlog(title, content.value, Strip(entry)))
                              else old(lastGeneratedBlog))
      ensures credentials == old(credentials) && searchResult == old(searchResult)
      ensures titles == old(titles) && descriptions == old(descriptions) && analysisResult == old(analysisResult)
      ensures shownTitles == old(shownTitles) && lastGeneratedImages == old(lastGeneratedImages)
      ensures blogFolderPath == old(blogFolderPath)
    {
      var keyword := Strip(entry);
      var content := write(title, keyword, promptType, additionalPrompt);
      if content.None? {
        return false;
      }
      lastGeneratedBlog := Some(GeneratedBlog(title, content.value, keyword));
      return true;
    }

    /** generate_blog_images: needs an article; images already made are shown again;
        otherwise auto_generate_blog_images runs. */
    method GenerateBlogImages(promptReply: Option<string>, image: (nat, string) -> Option<string>,
                              folderCreated: bool, timestamp: string)
      returns (end: ImagesEnd)
      modifies this`lastGeneratedImages, this`blogFolderPath
      ensures old(lastGeneratedBlog).None? ==> end == NoBlog
      ensures old(lastGeneratedBlog).Some? && old(lastGeneratedImages) != [] ==> end == Reshown
      ensures end != Saved ==> unchanged(this)
      ensures old(lastGeneratedBlog).Some? && old(lastGeneratedImages) == [] ==>
        var batch := BlogBatch(old(lastGeneratedBlog).value, promptReply, image);
        (batch.0 == [] ==> end == NoPrompts) &&
        (batch.0 != [] && batch.1 == [] ==> end == BatchFailed) &&
        (batch.1 != [] ==> end == Saved)
      ensures end == Saved ==>
        var blog := old(lastGeneratedBlog).value;
        lastGeneratedImages == BlogBatch(blog, promptReply, image).1 &&
        blogFolderPath == (if folderCreated then Some(FolderName(blog.title, timestamp)) else old(blogFolderPath))
      ensures credentials == old(credentials) && searchResult == old(searchResult)
      ensures titles == old(titles) && descriptions == old(descriptions) && analysisResult == old(analysisResult)
      ensures shownTitles == old(shownTitles) && lastGeneratedBlog == old(lastGeneratedBlog)
    {
      if lastGeneratedBlog.None? {
        return NoBlog;
      }
      if lastGeneratedImages != [] {
        return Reshown;
      }
      end := AutoGenerateBlogImages(lastGeneratedBlog.value, promptReply, image, folderCreated, timestamp);
    }

    /** auto_generate_blog_images: the all-or-nothing batch over the article's prompts;
        a non-empty batch is remembered together with the folder it was saved in. */
    method AutoGenerateBlogImages(blog: GeneratedBlog, promptReply: Option<string>,
                                  image: (nat, string) -> Option<string>, folderCreated: bool, timestamp: string)
      returns (end: ImagesEnd)
      modifies this`lastGeneratedImages, this`blogFolderPath
      ensures end != Saved ==> unchanged(this)
      ensures var batch := BlogBatch(blog, promptReply, image);
        (batch.0 == [] ==> end == NoPrompts) &&
        (batch.0 != [] && batch.1 == [] ==> end == BatchFailed) &&
        (batch.1 != [] ==> end == Saved)
      ensures end == Saved ==>
        lastGeneratedImages == BlogBatch(blog, promptReply, image).1 &&
        blogFolderPath == (if folderCreated then Some(FolderName(blog.title, timestamp)) else old(blogFolderPath))
      ensures credentials == old(credentials) && searchResult == old(searchResult)
      ensures titles == old(titles) && descriptions == old(descriptions) && analysisResult == old(analysisResult)
      ensures shownTitles == old(shownTitles) && lastGeneratedBlog == old(lastGeneratedBlog)
    {
      var prompts, images := RunBlogBatch(blog, promptReply, image);
      ghost var batch := BlogBatch(blog, promptReply, image);
      assert batch == (prompts, images);
      if prompts == [] {
        return NoPrompts;
      }
      if images == [] {
        return BatchFailed;
      }
      var folder := if folderCreated then Some(FolderName(blog.title, timestamp)) else blogFolderPath;
      lastGeneratedImages, blogFolderPath := images, folder;
      return Saved;
    }
  }

  /** The prompts create_image_prompts gives for an article and the batch
      generate_dall_e_images makes of them (none is run without prompts). */
  function BlogBatch(blog: GeneratedBlog, promptReply: Option<string>, image: (nat, string) -> Option<string>)
    : (seq<string>, seq<ImagePrompts.ImageRecord>)
  {
    var prompts := ImagePrompts.DesktopImagePrompts(blog.title, blog.content, blog.keyword, promptReply);
    (prompts, if prompts == [] then [] else ImagePrompts.AllOrNothing(prompts, image))
  }

  method RunBlogBatch(blog: GeneratedBlog, promptReply: Option<string>, image: (nat, string) -> Option<string>)
    returns (prompts: seq<string>, images: seq<ImagePrompts.ImageRecord>)
    ensures prompts == BlogBatch(blog, promptReply, image).0 && images == BlogBatch(blog, promptReply, image).1
  {
    prompts := ImagePrompts.CreateDesktopImagePrompts(blog.title, blog.content, blog.keyword, promptReply);
    images := [];
    if prompts != [] {
      images := ImagePrompts.GenerateImagesAll(prompts, image);
    }
  }

  /** A batch is kept only when every prompt got its image, and then it holds one
      record per prompt. */
  lemma SavedBatchComplete(prompts: seq<string>, image: (nat, string) -> Option<string>)
    requires ImagePrompts.AllOrNothing(prompts, image) != []
    ensures prompts != [] && |ImagePrompts.AllOrNothing(prompts, image)| == |prompts|
    ensures forall i :: 0 <= i < |prompts| ==>
      image(i, prompts[i]).Some? && ImagePrompts.AllOrNothing(prompts, image)[i].index == i + 1
  {
  }
}
