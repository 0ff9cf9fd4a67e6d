/** The result store of the web front end (web_app.py): `temp_results`, a dict from
    session id to the record one search starts and each later stage extends. The
    dict's iteration order matters to the legacy routes, so the store keeps the
    insertion order beside the map. Every language-model and image call is an
    oracle parameter whose None stands for the call raising; the routes answer 500
    then, before anything is stored. */
module SessionStore {
  import opened Text
  import Extraction
  import TagStripper
  import TitleParsing
  import ImagePrompts
  import Seo

  /** A route's answer: the payload, or the HTTP status of the error reply. */
  datatype Reply<T> = Success(value: T) | Failure(status: nat)

  /** One entry of the search reply's `items`, with the keys the legacy route copies. */
  datatype Listing = Listing(item: Extraction.Item, link: Option<string>, postdate: Option<string>)

  /** What search_naver_blog gives: it raised, an empty (falsy) reply, a reply without
      `items`, or the items. */
  datatype SearchReply = Raised | Empty | NoItems | Items(listings: seq<Listing>)

  datatype SearchResult = SearchResult(title: string, description: string, link: string, postdate: string)

  /** What the search stage stored: /api/search keeps title and description columns,
      the legacy /search a list of result records. */
  datatype Found = Columns(titles: seq<string>, descriptions: seq<string>) | Results(results: seq<SearchResult>)

  datatype Blog = Blog(title: string, content: string, promptType: string, additionalPrompt: string,
                       minChars: Seo.CharsArg, maxChars: Seo.CharsArg)

  /** One `temp_results` record; a stage's key is None until that stage has run. */
  datatype Session = Session(keyword: string, found: Found, timestamp: int,
                             analysis: Option<string>, analysisType: Option<string>,
                             generatedTitles: Option<seq<string>>, blog: Option<Blog>,
                             images: Option<seq<ImagePrompts.ImageRecord>>)

  function NewSession(keyword: string, found: Found, now: int): Session
  {
    Session(keyword, found, now, None, None, None, None, None)
  }

  function ItemsOf(listings: seq<Listing>): seq<Extraction.Item>
  {
    seq(|listings|, k requires 0 <= k < |listings| => listings[k].item)
  }

  /** The columns /api/search stores: the pairs the filtering extraction keeps. */
  function KeptColumns(items: seq<Extraction.Item>): (f: Found)
    ensures f.Columns? && |f.titles| == |f.descriptions| == |Extraction.Kept(items)|
  {
    var kept := Extraction.Kept(items);
    Columns(seq(|kept|, k requires 0 <= k < |kept| => kept[k].0),
            seq(|kept|, k requires 0 <= k < |kept| => kept[k].1))
  }

  /** The record the legacy /search builds for one listing. */
  function ResultOf(l: Listing): SearchResult
  {
    SearchResult(TagStripper.StripTags(Extraction.FieldOr(l.item.title)),
                 TagStripper.StripTags(Extraction.FieldOr(l.item.description)),
                 Extraction.FieldOr(l.link), Extraction.FieldOr(l.postdate))
  }

  /** The result loop of the legacy /search: one record per listing, in order. */
  method CollectResults(listings: seq<Listing>) returns (results: seq<SearchResult>)
    ensures |results| == |listings|
    ensures forall k :: 0 <= k < |listings| ==> results[k] == ResultOf(listings[k])
  {
    results := [];
    var i := 0;
    while i < |listings|
      invariant 0 <= i <= |listings| && |results| == i
      invariant forall k :: 0 <= k < i ==> results[k] == ResultOf(listings[k])
    {
      results := results + [ResultOf(listings[i])];
      i := i + 1;
    }
  }

  // ---------------------------------------------------------------- latest session

  /** A session the scan may choose: any, or only one that has been analysed. */
  predicate Qualifies(s: Session, needsAnalysis: bool) { !needsAnalysis || s.analysis.Some? }

  /** The scan of the legacy routes over the ids in iteration order: a qualifying
      session replaces the current choice only when its timestamp is strictly later. */
  function Latest(ids: seq<string>, sessions: map<string, Session>, needsAnalysis: bool): (r: Option<string>)
    requires forall i :: 0 <= i < |ids| ==> ids[i] in sessions
    ensures r.Some? ==> r.value in ids && r.value in sessions && Qualifies(sessions[r.value], needsAnalysis)
  {
    if ids == [] then None
    else
      var m := |ids| - 1;
      var prev := Latest(ids[..m], sessions, needsAnalysis);
      var id := ids[m];
      if !Qualifies(sessions[id], needsAnalysis) then prev
      else if prev.None? || sessions[id].timestamp > sessions[prev.value].timestamp then Some(id)
      else prev
  }

  /** The scan finds nothing exactly when no session qualifies; otherwise it finds a
      qualifying session with the latest timestamp, and among equally late ones the
      first in iteration order. */
  lemma {:induction false} LatestSpec(ids: seq<string>, sessions: map<string, Session>, needsAnalysis: bool)
    requires forall i :: 0 <= i < |ids| ==> ids[i] in sessions
    ensures Latest(ids, sessions, needsAnalysis).None? <==>
      forall i :: 0 <= i < |ids| ==> !Qualifies(sessions[ids[i]], needsAnalysis)
    ensures Latest(ids, sessions, needsAnalysis).Some? ==>
      var latest := sessions[Latest(ids, sessions, needsAnalysis).value];
      (forall i :: 0 <= i < |ids| && Qualifies(sessions[ids[i]], needsAnalysis) ==>
         sessions[ids[i]].timestamp <= latest.timestamp) &&
      (exists k :: 0 <= k < |ids| && ids[k] == Latest(ids, sessions, needsAnalysis).value &&
         forall j :: 0 <= j < k && Qualifies(sessions[ids[j]], needsAnalysis) ==>
           sessions[ids[j]].timestamp < latest.timestamp)
  {
    if ids != [] {
      var m := |ids| - 1;
      var pre := ids[..m];
      LatestSpec(pre, sessions, needsAnalysis);
      assert forall i :: 0 <= i < m ==> ids[i] == pre[i];
      var prev := Latest(pre, sessions, needsAnalysis);
      var r := Latest(ids, sessions, needsAnalysis);
      if r.Some? && r == prev {
        var k :| 0 <= k < m && pre[k] == prev.value &&
          forall j :: 0 <= j < k && Qualifies(sessions[pre[j]], needsAnalysis) ==>
            sessions[pre[j]].timestamp < sessions[prev.value].timestamp;
        assert ids[k] == r.value;
      } else if r.Some? {
        assert ids[m] == r.value;
      }
    }
  }

  // ---------------------------------------------------------------- the store

  class Store {
    var sessions: map<string, Session>
    /** The ids in dict iteration (insertion) order. */
    var order: seq<string>

    predicate Valid()
      reads this
    {
      (forall i :: 0 <= i < |order| ==> order[i] in sessions && order[i] != []) &&
      (forall id :: id in sessions ==> id in order) &&
      (forall i, j :: 0 <= i < j < |order| ==> order[i] != order[j])
    }

    constructor()
      ensures Valid() && sessions == map[] && order == []
    {
      sessions := map[];
      order := [];
    }

    /** temp_results[id] = s: a new id goes to the end of the iteration order, an
        existing one keeps its place. */
    method Put(id: string, s: Session)
      requires Valid() && id != []
      modifies this
      ensures Valid()
      ensures sessions == old(sessions)[id := s]
      ensures order == if id in old(sessions) then old(order) else old(order) + [id]
    {
      if id !in sessions {
        assert id !in order;
        order := order + [id];
      }
      sessions := sessions[id := s];
    }

    /** `not session_id or session_id not in temp_results` is false. */
    predicate Known(id: string)
      reads this
    {
      id != [] && id in sessions
    }

    /** /api/search: a non-blank keyword, configured Naver credentials and a search
        reply with at least one titled item start a new session under the fresh id. */
    method ApiSearch(keyword: string, credentials: bool, reply: SearchReply, id: string, now: int)
      returns (r: Reply<string>)
      requires Valid() && id != []
      modifies this
      ensures Valid()
      ensures Strip(keyword) == [] || !credentials ==> r == Failure(400)
      ensures Strip(keyword) != [] && credentials && (reply.Raised? || reply.Empty?) ==> r == Failure(500)
      ensures Strip(keyword) != [] && credentials && reply.NoItems? ==> r == Failure(404)
      ensures Strip(keyword) != [] && credentials && reply.Items? ==>
        var found := KeptColumns(ItemsOf(reply.listings));
        if found.titles == [] then r == Failure(404)
        else r == Success(id) && sessions == old(sessions)[id := NewSession(Strip(keyword), found, now)]
      ensures r.Failure? ==> sessions == old(sessions) && order == old(order)
      ensures r.Success? ==> order == if id in old(sessions) then old(order) else old(order) + [id]
    {
      var kw := Strip(keyword);
      if kw == [] || !credentials {
        return Failure(400);
      }
      if reply.Raised? || reply.Empty? {
        return Failure(500);
      }
      var response := if reply.Items? then Some(ItemsOf(reply.listings)) else None;
      var columns := Extraction.ExtractFiltering(response);
      if columns.titles == [] {
        return Failure(404);
      }
      var found := KeptColumns(ItemsOf(reply.listings));
      assert columns.titles == found.titles && columns.descriptions == found.descriptions;
      Put(id, NewSession(kw, found, now));
      return Success(id);
    }

    /** /api/analyze: the analysis of a known session's columns is stored with its type. */
    method ApiAnalyze(id: string, analysisType: string,
                      analyze: (seq<string>, seq<string>, string, string) -> Option<string>)
      returns (r: Reply<string>)
      requires Valid()
      modifies this
      ensures Valid() && order == old(order)
      ensures id == [] || id !in old(sessions) ==> r == Failure(400)
      ensures id != [] && id in old(sessions) ==>
        var s := old(sessions)[id];
        if s.found.Results? then r == Failure(500)
        else if analyze(s.found.titles, s.found.descriptions, s.keyword, analysisType).None? then r == Failure(500)
        else
          var a := analyze(s.found.titles, s.found.descriptions, s.keyword, analysisType).value;
          r == Success(a) && sessions == old(sessions)[id := s.(analysis := Some(a), analysisType := Some(analysisType))]
      ensures r.Failure? ==> sessions == old(sessions)
    {
      if !Known(id) {
        return Failure(400);
      }
      var s := sessions[id];
      if s.found.Results? {
        return Failure(500);
      }
      var a := analyze(s.found.titles, s.found.descriptions, s.keyword, analysisType);
      if a.None? {
        return Failure(500);
      }
      Put(id, s.(analysis := Some(a.value), analysisType := Some(analysisType)));
      return Success(a.value);
    }

    /** /api/generate_titles: needs an analysed session; the titles parsed from the
        model's answer, padded with fallbacks and cut to n, are stored. */
    method ApiGenerateTitles(id: string, n: int, generate: (string, string, int) -> Option<string>)
      returns (r: Reply<seq<string>>)
      requires Valid()
      modifies this
      ensures Valid() && order == old(order)
      ensures id == [] || id !in old(sessions) ==> r == Failure(400)
      ensures id != [] && id in old(sessions) ==>
        var s := old(sessions)[id];
        if s.analysis.None? then r == Failure(400)
        else if generate(s.analysis.value, s.keyword, n).None? then r == Failure(500)
        else
          var titles := TitleParsing.PaddedTitles(
            TitleParsing.ExtractedTitles(generate(s.analysis.value, s.keyword, n).value), s.keyword, n);
          r == Success(titles) && sessions == old(sessions)[id := s.(generatedTitles := Some(titles))]
      ensures r.Failure? ==> sessions == old(sessions)
    {
      if !Known(id) {
        return Failure(400);
      }
      var s := sessions[id];
      if s.analysis.None? {
        return Failure(400);
      }
      var answer := generate(s.analysis.value, s.keyword, n);
      if answer.None? {
        return Failure(500);
      }
      var extracted := TitleParsing.ParseGeneratedTitles(answer.value);
      var titles := TitleParsing.PadTitles(extracted, s.keyword, n);
      Put(id, s.(generatedTitles := Some(titles)));
      return Success(titles);
    }

    /** /api/generate_blog: a known session and a chosen title give an article written
        within the clamped length settings; it is stored with its request and
        answered with its SEO report. */
    method ApiGenerateBlog(id: string, title: string, promptType: string, additionalPrompt: string,
                           minArg: Seo.CharsArg, maxArg: Seo.CharsArg,
                           write: (string, string, string, string, Seo.LengthSettings, Option<string>) -> Option<string>)
      returns (r: Reply<(string, Seo.SeoReport)>)
      requires Valid()
      modifies this
      ensures Valid() && order == old(order)
      ensures id == [] || id !in old(sessions) || title == [] ==> r == Failure(400)
      ensures id != [] && id in old(sessions) && title != [] ==>
        var s := old(sessions)[id];
        var content := write(title, s.keyword, promptType, additionalPrompt, Seo.Clamp(minArg, maxArg), s.analysis);
        if content.None? then r == Failure(500)
        else
          r == Success((content.value, Seo.Report(content.value, s.keyword))) &&
          sessions == old(sessions)[id := s.(blog := Some(Blog(title, content.value, promptType, additionalPrompt, minArg, maxArg)))]
      ensures r.Failure? ==> sessions == old(sessions)
    {
      if !Known(id) || title == [] {
        return Failure(400);
      }
      var s := sessions[id];
      var content := write(title, s.keyword, promptType, additionalPrompt, Seo.Clamp(minArg, maxArg), s.analysis);
      if content.None? {
        return Failure(500);
      }
      Put(id, s.(blog := Some(Blog(title, content.value, promptType, additionalPrompt, minArg, maxArg))));
      var report := Seo.AnalyzeSeoContent(content.value, s.keyword);
      return Success((content.value, report));
    }

    /** /api/generate_images: needs a stored article; the images of its title are
        stored. Without an OpenAI key generate_dall_e_images raises. */
    method ApiGenerateImages(id: string, n: int, keyConfigured: bool, promptReply: Option<string>,
                             image: (nat, string) -> Option<string>)
      returns (r: Reply<seq<ImagePrompts.ImageRecord>>)
      requires Valid()
      modifies this
      ensures Valid() && order == old(order)
      ensures id == [] || id !in old(sessions) ==> r == Failure(400)
      ensures id != [] && id in old(sessions) ==>
        var s := old(sessions)[id];
        if s.blog.None? then r == Failure(400)
        else if !keyConfigured then r == Failure(500)
        else
          var images := ImagePrompts.WebImages(s.blog.value.title, s.keyword, n, promptReply, image);
          r == Success(images) && sessions == old(sessions)[id := s.(images := Some(images))]
      ensures r.Failure? ==> sessions == old(sessions)
    {
      if !Known(id) {
        return Failure(400);
      }
      var s := sessions[id];
      if s.blog.None? {
        return Failure(400);
      }
      if !keyConfigured {
        return Failure(500);
      }
      var images := ImagePrompts.GenerateDallEImages(s.blog.value.title, s.keyword, n, promptReply, image);
      Put(id, s.(images := Some(images)));
      return Success(images);
    }

    /** /api/results/<id>: the stored stages of a session, with an empty list for a
        stage that has not run (and for the columns of a legacy session). */
    function ResultsFor(id: string): (r: Reply<ResultsView>)
      reads this
      ensures r.Failure? <==> id !in sessions
      ensures r.Failure? ==> r.status == 400
      ensures r.Success? ==>
        r.value.keyword == sessions[id].keyword && r.value.analysis == sessions[id].analysis &&
        r.value.titles == (if sessions[id].found.Columns? then sessions[id].found.titles else []) &&
        r.value.blog == sessions[id].blog &&
        (sessions[id].generatedTitles.Some? ==> r.value.generatedTitles == sessions[id].generatedTitles.value) &&
        (sessions[id].generatedTitles.None? ==> r.value.generatedTitles == []) &&
        (sessions[id].images.Some? ==> r.value.images == sessions[id].images.value) &&
        (sessions[id].images.None? ==> r.value.images == [])
    {
      if id !in sessions then Failure(400)
      else
        var s := sessions[id];
        Success(ResultsView(s.keyword, if s.found.Columns? then s.found.titles else [], s.analysis,
                            OrEmpty(s.generatedTitles), s.blog, OrEmpty(s.images)))
    }

    // ------------------------------------------------------------ legacy routes

    /** The scan loop of the legacy /analyze and /generate-titles routes. */
    method LatestSession(needsAnalysis: bool) returns (latest: Option<string>)
      requires Valid()
      ensures latest == Latest(order, sessions, needsAnalysis)
    {
      latest := None;
      var i := 0;
      while i < |order|
        invariant 0 <= i <= |order|
        invariant latest == Latest(order[..i], sessions, needsAnalysis)
      {
        assert order[..i + 1][..i] == order[..i];
        var id := order[i];
        var s := sessions[id];
        if !needsAnalysis || s.analysis.Some? {
          if latest.None? || s.timestamp > sessions[latest.value].timestamp {
            latest := Some(id);
          }
        }
        i := i + 1;
      }
      assert order[..i] == order;
    }

    /** Legacy /search: no credential check and no 404; any reply with `items`
        starts a session holding one record per item. */
    method LegacySearch(keyword: string, reply: SearchReply, id: string, now: int)
      returns (r: Reply<seq<SearchResult>>)
      requires Valid() && id != []
      modifies this
      ensures Valid()
      ensures Strip(keyword) == [] ==> r == Failure(400)
      ensures Strip(keyword) != [] && reply.Raised? ==> r == Failure(500)
      ensures Strip(keyword) != [] && (reply.Empty? || reply.NoItems?) ==> r == Failure(400)
      ensures Strip(keyword) != [] && reply.Items? ==>
        r.Success? && |r.value| == |reply.listings| &&
        (forall k :: 0 <= k < |reply.listings| ==> r.value[k] == ResultOf(reply.listings[k])) &&
        sessions == old(sessions)[id := NewSession(Strip(keyword), Results(r.value), now)] &&
        order == if id in old(sessions) then old(order) else old(order) + [id]
      ensures r.Failure? ==> sessions == old(sessions) && order == old(order)
    {
      var kw := Strip(keyword);
      if kw == [] {
        return Failure(400);
      }
      if reply.Raised? {
        return Failure(500);
      }
      if !reply.Items? {
        return Failure(400);
      }
      var results := CollectResults(reply.listings);
      Put(id, NewSession(kw, Results(results), now));
      return Success(results);
    }

    /** Legacy /analyze: the latest session is analysed with the default type, which
        is not recorded; a session of /api/search has no `results` (KeyError). */
    method LegacyAnalyze(analyze: (seq<string>, seq<string>, string, string) -> Option<string>)
      returns (r: Reply<(string, string)>)
      requires Valid()
      modifies this
      ensures Valid() && order == old(order)
      ensures var latest := Latest(old(order), old(sessions), false);
        if latest.None? then r == Failure(400)
        else
          var s := old(sessions)[latest.value];
          if s.found.Columns? then r == Failure(500)
          else
            var rs := s.found.results;
            var titles := seq(|rs|, k requires 0 <= k < |rs| => rs[k].title);
            var descriptions := seq(|rs|, k requires 0 <= k < |rs| => rs[k].description);
            var a := analyze(titles, descriptions, s.keyword, "comprehensive");
            if a.None? then r == Failure(500)
            else r == Success((a.value, latest.value)) &&
                 sessions == old(sessions)[latest.value := s.(analysis := Some(a.value))]
      ensures r.Failure? ==> sessions == old(sessions)
    {
      var latest := LatestSession(false);
      if latest.None? {
        return Failure(400);
      }
      var s := sessions[latest.value];
      if s.found.Columns? {
        return Failure(500);
      }
      var rs := s.found.results;
      var titles := seq(|rs|, k requires 0 <= k < |rs| => rs[k].title);
      var descriptions := seq(|rs|, k requires 0 <= k < |rs| => rs[k].description);
      var a := analyze(titles, descriptions, s.keyword, "comprehensive");
      if a.None? {
        return Failure(500);
      }
      Put(latest.value, s.(analysis := Some(a.value)));
      return Success((a.value, latest.value));
    }

    /** Legacy /generate-titles: ten titles are asked for the latest analysed session
        and the numbered lines of the answer are stored. */
    method LegacyGenerateTitles(generate: (string, string, int) -> Option<string>)
      returns (r: Reply<(seq<string>, string)>)
      requires Valid()
      modifies this
      ensures Valid() && order == old(order)
      ensures var latest := Latest(old(order), old(sessions), true);
        if latest.None? then r == Failure(400)
        else
          var s := old(sessions)[latest.value];
          var answer := generate(s.analysis.value, s.keyword, 10);
          if answer.None? then r == Failure(500)
          else
            var titles := TitleParsing.LegacyTitles(Split(answer.value, '\n'));
            r == Success((titles, latest.value)) &&
            sessions == old(sessions)[latest.value := s.(generatedTitles := Some(titles))]
      ensures r.Failure? ==> sessions == old(sessions)
    {
      var latest := LatestSession(true);
      if latest.None? {
        return Failure(400);
      }
      var s := sessions[latest.value];
      var answer := generate(s.analysis.value, s.keyword, 10);
      if answer.None? {
        return Failure(500);
      }
      var titles := TitleParsing.ParseLegacyTitles(answer.value);
      Put(latest.value, s.(generatedTitles := Some(titles)));
      return Success((titles, latest.value));
    }

    /** Legacy /generate-blog: the keyword and analysis come from the first session
        in iteration order, whichever search the title came from; nothing is stored. */
    method LegacyGenerateBlog(title: string, minArg: Seo.CharsArg, maxArg: Seo.CharsArg,
                              write: (string, string, string, string, Seo.LengthSettings, Option<string>) -> Option<string>)
      returns (r: Reply<string>)
      requires Valid()
      ensures Strip(title) == [] ==> r == Failure(400)
      ensures Strip(title) != [] && (order == [] || sessions[order[0]].keyword == []) ==> r == Failure(400)
      ensures Strip(title) != [] && order != [] && sessions[order[0]].keyword != [] ==>
        var s := sessions[order[0]];
        var content := write(Strip(title), s.keyword, "informative", "", Seo.Clamp(minArg, maxArg), s.analysis);
        if content.None? then r == Failure(500) else r == Success(content.value)
    {
      var t := Strip(title);
      if t == [] {
        return Failure(400);
      }
      if order == [] || sessions[order[0]].keyword == [] {
        return Failure(400);
      }
      var s := sessions[order[0]];
      var content := write(t, s.keyword, "informative", "", Seo.Clamp(minArg, maxArg), s.analysis);
      if content.None? {
        return Failure(500);
      }
      return Success(content.value);
    }

    /** Legacy /generate-images: the images of the given title are stored in the first
        session in iteration order, and that session's keyword (or else the title)
        steers the backup prompts. */
    method LegacyGenerateImages(title: string, content: string, n: int, keyConfigured: bool,
                                promptReply: Option<string>, image: (nat, string) -> Option<string>)
      returns (r: Reply<(seq<ImagePrompts.ImageRecord>, Option<string>)>)
      requires Valid()
      modifies this
      ensures Valid() && order == old(order)
      ensures title == [] || content == [] ==> r == Failure(400)
      ensures title != [] && content != [] && !keyConfigured ==> r == Failure(500)
      ensures title != [] && content != [] && keyConfigured ==>
        var keyword := if old(order) != [] && old(sessions)[old(order)[0]].keyword != []
                       then old(sessions)[old(order)[0]].keyword else title;
        var images := ImagePrompts.WebImages(title, keyword, n, promptReply, image);
        if old(order) == [] then r == Success((images, None)) && sessions == old(sessions)
        else
          var target := old(order)[0];
          r == Success((images, Some(target))) &&
          sessions == old(sessions)[target := old(sessions)[target].(images := Some(images))]
      ensures r.Failure? ==> sessions == old(sessions)
    {
      if title == [] || content == [] {
        return Failure(400);
      }
      var keyword := title;
      var target: Option<string> := None;
      if order != [] {
        target := Some(order[0]);
        if sessions[order[0]].keyword != [] {
          keyword := sessions[order[0]].keyword;
        }
      }
      if !keyConfigured {
        return Failure(500);
      }
      var images := ImagePrompts.GenerateDallEImages(title, keyword, n, promptReply, image);
      if target.Some? {
        var s := sessions[target.value];
        Put(target.value, s.(images := Some(images)));
      }
      return Success((images, target));
    }
  }

  /** What /api/results/<id> answers with. */
  datatype ResultsView = ResultsView(keyword: string, titles: seq<string>, analysis: Option<string>,
                                     generatedTitles: seq<string>, blog: Option<Blog>,
                                     images: seq<ImagePrompts.ImageRecord>)

  function OrEmpty<T>(o: Option<seq<T>>): seq<T>
  {
    match o
    case Some(v) => v
    case None => []
  }
}
