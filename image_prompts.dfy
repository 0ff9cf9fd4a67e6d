/** Image prompts for the illustration step and the image batches built from them.
    - web_app.py create_image_prompts: numbered lines longer than 20 characters,
      padded position by position from keyword-based backup prompts;
      get_backup_professional_prompts classifies the topic as person, nature or
      product and fills four photography templates with the keyword;
    - desktop_gui.py create_image_prompts: numbered lines, at most four, with a
      country-mention scan feeding four fallback prompts;
    - the image batches: web_app.py skips a failed prompt, desktop_gui.py gives up
      on the whole batch. The image service is an oracle from (position, prompt)
      to an optional URL. */
module ImagePrompts {
  import opened Text
  import opened Numbered

  // ---------------------------------------------------------------- numbered lines

  /** The prompt a response line carries: the stripped line must start with
      `\d+\.`; the prefix and the whitespace after it are removed. */
  function NumberedPrompt(line: string): Option<string>
  {
    var l := Strip(line);
    if StartsNumberDot(l) then Some(Strip(StripNumberDot(l))) else None
  }

  /** A line's prompt when it is longer than minLen characters. */
  function PromptOutcome(line: string, minLen: nat): Option<string>
  {
    match NumberedPrompt(line)
    case Some(p) => if |p| > minLen then Some(p) else None
    case None => None
  }

  function PromptOutcomes(lines: seq<string>, minLen: nat): (r: seq<Option<string>>)
    ensures |r| == |lines|
  {
    seq(|lines|, k requires 0 <= k < |lines| => PromptOutcome(lines[k], minLen))
  }

  /** The prompts of the lines, in line order. */
  function NumberedPrompts(lines: seq<string>, minLen: nat): seq<string>
  {
    Somes(PromptOutcomes(lines, minLen))
  }

  /** The parsing loop both front ends run over the answer's lines. */
  method ParseNumberedPrompts(text: string, minLen: nat) returns (prompts: seq<string>)
    ensures prompts == NumberedPrompts(Split(text, '\n'), minLen)
  {
    prompts := PromptsOfLines(Split(text, '\n'), minLen);
  }

  method PromptsOfLines(lines: seq<string>, minLen: nat) returns (prompts: seq<string>)
    ensures prompts == NumberedPrompts(lines, minLen)
  {
    ghost var outcomes := PromptOutcomes(lines, minLen);
    prompts := [];
    var i := 0;
    while i < |lines|
      invariant 0 <= i <= |lines|
      invariant prompts == Somes(outcomes[..i])
    {
      PrefixSnoc(outcomes, i);
      var line := Strip(lines[i]);
      if StartsNumberDot(line) {
        var prompt := Strip(StripNumberDot(line));
        if |prompt| > minLen {
          assert NumberedPrompt(lines[i]) == Some(prompt);
          assert outcomes[i] == Some(prompt);
          prompts := prompts + [prompt];
        } else {
          assert outcomes[i].None?;
        }
      } else {
        assert outcomes[i].None?;
      }
      i := i + 1;
    }
    assert outcomes[..i] == outcomes;
  }

  /** Every parsed prompt is longer than the minimum and carries no surrounding whitespace. */
  lemma NumberedPromptsShape(lines: seq<string>, minLen: nat)
    ensures forall p :: p in NumberedPrompts(lines, minLen) ==>
      |p| > minLen && NoLeadingSpace(p) && NoTrailingSpace(p)
  {
    forall p | p in NumberedPrompts(lines, minLen)
      ensures |p| > minLen && NoLeadingSpace(p) && NoTrailingSpace(p)
    {
      SomesMember(PromptOutcomes(lines, minLen), p);
      var k :| 0 <= k < |lines| && PromptOutcomes(lines, minLen)[k] == Some(p);
    }
  }

  /** The numbered prompt of an enumerated line is its text. */
  lemma NumberedPromptOfEnumerated(i: nat, p: string)
    requires p != [] && NoLeadingSpace(p) && NoTrailingSpace(p) && '\n' !in p
    ensures NumberedPrompt(EnumerateLine(i, p)) == Some(p)
  {
    var line := EnumerateLine(i, p);
    EnumerateLineStripped(i, p);
    EnumeratedShape(i, p);
    StripNumberDotEnumerated(i, p);
  }

  /** Round trip: prompts long enough to pass, written one per line as `N. prompt`,
      are read back exactly. */
  lemma NumberedPromptsOfEnumerated(ps: seq<string>, minLen: nat)
    requires forall k :: 0 <= k < |ps| ==>
      |ps[k]| > minLen && NoLeadingSpace(ps[k]) && NoTrailingSpace(ps[k]) && '\n' !in ps[k]
    ensures ps != [] ==> NumberedPrompts(Split(Join("\n", Enumerate(ps)), '\n'), minLen) == ps
  {
    if ps != [] {
      var lines := Enumerate(ps);
      forall k | 0 <= k < |lines| ensures '\n' !in lines[k] && PromptOutcome(lines[k], minLen) == Some(ps[k]) {
        EnumerateLineStripped(k, ps[k]);
        NumberedPromptOfEnumerated(k, ps[k]);
      }
      SplitJoin(lines, '\n');
      SomesAll(PromptOutcomes(lines, minLen), ps);
    }
  }

  // ---------------------------------------------------------------- web backup prompts

  datatype ContentType = Person | Nature | Product

  const PersonWords: seq<string> := ["사람", "인물", "직업", "생활", "일상", "관계", "가족", "친구", "연인",
    "아이", "어른", "남성", "여성"]
  const NatureWords: seq<string> := ["자연", "산", "바다", "강", "숲", "꽃", "나무", "풍경", "하늘", "구름",
    "일출", "일몰", "계절", "날씨"]

  /** Some word of the list occurs in the lower-cased title or keyword. */
  predicate Mentions(title: string, keyword: string, words: seq<string>)
  {
    exists k :: 0 <= k < |words| && (Contains(Lower(title), words[k]) || Contains(Lower(keyword), words[k]))
  }

  /** The topic guess: person words first, then nature words, product otherwise.
      The source's product word list is never consulted, product being the default. */
  function Classify(title: string, keyword: string): ContentType
  {
    if Mentions(title, keyword, PersonWords) then Person
    else if Mentions(title, keyword, NatureWords) then Nature
    else Product
  }

  const PersonTail := ", natural lighting, soft background blur, Canon EOS R5, 85mm lens, realistic skin texture, high resolution, 4K quality"
  const NatureTail := ", vivid color grading, cinematic lighting, Sony Alpha 7R IV, 24mm lens, realistic environmental textures, ultra-detailed, 4K quality"
  const ProductTail := ", minimalist background, subtle studio lighting, Nikon D850, macro lens, sharp details, realistic textures, ultra-detailed, 4K quality"

  /** The four template heads and tails of a topic; the keyword goes between them. */
  function TemplateParts(t: ContentType): (r: seq<(string, string)>)
    ensures |r| == 4
  {
    match t
    case Person => [
      ("Professional photography portrait of a smiling Korean person enjoying ", PersonTail),
      ("Professional photography portrait of Korean people discussing ", PersonTail),
      ("Professional photography portrait of a Korean professional working with ", PersonTail),
      ("Professional photography portrait of Korean family members experiencing ", " together" + PersonTail)]
    case Nature => [
      ("High-resolution landscape photography of Korean natural scenery featuring ", NatureTail),
      ("High-resolution landscape photography of beautiful Korean mountains and ", NatureTail),
      ("High-resolution landscape photography of Korean traditional garden with ", " elements" + NatureTail),
      ("High-resolution landscape photography of Korean coastal area showcasing ", NatureTail)]
    case Product => [
      ("Professional product photography of premium ", " items" + ProductTail),
      ("Professional product photography of modern ", " design" + ProductTail),
      ("Professional product photography of elegant ", " arrangement" + ProductTail),
      ("Professional product photography of innovative ", " concept" + ProductTail)]
  }

  function Templates(t: ContentType, keyword: string): (r: seq<string>)
    ensures |r| == 4
  {
    var parts := TemplateParts(t);
    seq(4, i requires 0 <= i < 4 => parts[i].0 + keyword + parts[i].1)
  }

  /** get_backup_professional_prompts: the topic's four templates cut to n. */
  function BackupPrompts(title: string, keyword: string, n: int): seq<string>
  {
    SliceTo(Templates(Classify(title, keyword), keyword), n)
  }

  /** Every backup prompt mentions the keyword, and there are min(4, n) of them. */
  lemma BackupPromptsShape(title: string, keyword: string, n: int)
    ensures var b := BackupPrompts(title, keyword, n);
      (n >= 0 ==> |b| == if n < 4 then n else 4) &&
      forall k :: 0 <= k < |b| ==> Contains(b[k], keyword)
  {
    var parts := TemplateParts(Classify(title, keyword));
    var all := Templates(Classify(title, keyword), keyword);
    forall k | 0 <= k < |BackupPrompts(title, keyword, n)| ensures Contains(BackupPrompts(title, keyword, n)[k], keyword) {
      ContainsMiddle(parts[k].0, keyword, parts[k].1);
    }
  }

  /** A person word wins over a nature word, and a nature word over the default. */
  lemma ClassifyOrder(title: string, keyword: string)
    ensures Classify(title, keyword) == Person <==> Mentions(title, keyword, PersonWords)
    ensures Classify(title, keyword) == Nature <==>
      !Mentions(title, keyword, PersonWords) && Mentions(title, keyword, NatureWords)
    ensures Classify(title, keyword) == Product <==>
      !Mentions(title, keyword, PersonWords) && !Mentions(title, keyword, NatureWords)
  {
  }

  // ---------------------------------------------------------------- web create_image_prompts

  /** The parsed prompts of the web front end: nothing from a blank answer. */
  function WebParsed(text: string): seq<string>
  {
    if Strip(text) == [] then [] else NumberedPrompts(Split(text, '\n'), 20)
  }

  /** Padding from the backup list at the positions the parse did not fill, then
      the cut to n. */
  function Padded(parsed: seq<string>, backup: seq<string>, n: int): seq<string>
  {
    var extended := if |parsed| < n then parsed + (if |parsed| <= |backup| then backup[|parsed|..] else []) else parsed;
    SliceTo(extended, n)
  }

  /** create_image_prompts of web_app.py; a None response is a failed model call. */
  function WebImagePrompts(title: string, keyword: string, n: int, response: Option<string>): seq<string>
  {
    var backup := BackupPrompts(title, keyword, n);
    match response
    case None => backup
    case Some(text) => Padded(WebParsed(text), backup, n)
  }

  method CreateImagePrompts(title: string, keyword: string, n: int, response: Option<string>)
    returns (prompts: seq<string>)
    ensures prompts == WebImagePrompts(title, keyword, n, response)
  {
    if response.None? {
      return BackupPrompts(title, keyword, n);
    }
    var text := response.value;
    prompts := [];
    if Strip(text) != [] {
      prompts := ParseNumberedPrompts(text, 20);
    }
    if |prompts| < n {
      var backup := BackupPrompts(title, keyword, n);
      prompts := prompts + (if |prompts| <= |backup| then backup[|prompts|..] else []);
    }
    prompts := SliceTo(prompts, n);
  }

  /** The padding keeps the parsed prompts in front, continues with the backup
      prompt of the same position, and gives n prompts when the backup list can
      reach n. */
  lemma PaddedShape(parsed: seq<string>, backup: seq<string>, n: int)
    requires n >= 0 && |backup| <= n
    ensures var r := Padded(parsed, backup, n);
      |r| == (if |parsed| >= n then n else if |parsed| >= |backup| then |parsed| else |backup|) &&
      forall k :: 0 <= k < |r| ==> r[k] == if k < |parsed| then parsed[k] else backup[k]
  {
  }

  /** Up to four images the web front end always has exactly as many prompts as requested. */
  lemma WebImagePromptsCount(title: string, keyword: string, n: int, response: Option<string>)
    requires 0 <= n <= 4
    ensures |WebImagePrompts(title, keyword, n, response)| == n
  {
    BackupPromptsShape(title, keyword, n);
    if response.Some? {
      PaddedShape(WebParsed(response.value), BackupPrompts(title, keyword, n), n);
    }
  }

  /** Every web prompt is a parsed line longer than 20 characters or a backup
      prompt, which mentions the keyword. */
  lemma WebImagePromptsOrigin(title: string, keyword: string, n: int, response: Option<string>)
    requires n >= 0
    ensures forall p :: p in WebImagePrompts(title, keyword, n, response) ==>
      (|p| > 20 && response.Some? && p in WebParsed(response.value)) || Contains(p, keyword)
  {
    var backup := BackupPrompts(title, keyword, n);
    BackupPromptsShape(title, keyword, n);
    if response.Some? {
      var parsed := WebParsed(response.value);
      if Strip(response.value) != [] {
        NumberedPromptsShape(Split(response.value, '\n'), 20);
      }
      PaddedShape(parsed, backup, n);
      var r := Padded(parsed, backup, n);
      forall p | p in r ensures (|p| > 20 && p in parsed) || Contains(p, keyword) {
        var k :| 0 <= k < |r| && r[k] == p;
        if k < |parsed| { assert parsed[k] in parsed; } else { assert p == backup[k]; }
      }
    }
  }

  // ---------------------------------------------------------------- desktop create_image_prompts

  const Countries: seq<string> := ["한국", "일본", "중국", "미국", "영국", "프랑스", "독일", "이탈리아", "스페인",
    "캐나다", "호주", "뉴질랜드", "태국", "베트남", "싱가포르", "말레이시아",
    "Korea", "Japan", "China", "USA", "America", "UK", "France", "Germany",
    "Italy", "Spain", "Canada", "Australia", "Thailand", "Vietnam", "Singapore"]

  /** A country counts as mentioned when its lower-cased name occurs in the
      lower-cased content or title. */
  predicate MentionedIn(country: string, content: string, title: string)
  {
    Contains(Lower(content), Lower(country)) || Contains(Lower(title), Lower(country))
  }

  /** The first country of the list that is mentioned. */
  function FirstMentioned(countries: seq<string>, content: string, title: string): Option<string>
  {
    if countries == [] then None
    else if MentionedIn(countries[0], content, title) then Some(countries[0])
    else FirstMentioned(countries[1..], content, title)
  }

  /** The country scan of create_image_prompts, a loop that stops at the first hit. */
  method MentionedCountry(content: string, title: string) returns (country: Option<string>)
    ensures country == FirstMentioned(Countries, content, title)
  {
    country := ScanCountries(Countries, content, title);
  }

  method ScanCountries(countries: seq<string>, content: string, title: string) returns (country: Option<string>)
    ensures country == FirstMentioned(countries, content, title)
  {
    var i := 0;
    while i < |countries|
      invariant 0 <= i <= |countries|
      invariant FirstMentioned(countries, content, title) == FirstMentioned(countries[i..], content, title)
    {
      assert countries[i..][1..] == countries[i + 1..];
      if MentionedIn(countries[i], content, title) {
        return Some(countries[i]);
      }
      i := i + 1;
    }
    return None;
  }

  /** The scan finds a country exactly when one is mentioned, and then the earliest. */
  lemma {:induction false} FirstMentionedSpec(countries: seq<string>, content: string, title: string)
    ensures FirstMentioned(countries, content, title).None? <==>
      forall k :: 0 <= k < |countries| ==> !MentionedIn(countries[k], content, title)
    ensures FirstMentioned(countries, content, title).Some? ==>
      exists k :: 0 <= k < |countries| && countries[k] == FirstMentioned(countries, content, title).value &&
        MentionedIn(countries[k], content, title) &&
        forall j :: 0 <= j < k ==> !MentionedIn(countries[j], content, title)
  {
    if countries != [] {
      FirstMentionedSpec(countries[1..], content, title);
      if !MentionedIn(countries[0], content, title) {
        if FirstMentioned(countries[1..], content, title).Some? {
          var k :| 0 <= k < |countries[1..]| && countries[1..][k] == FirstMentioned(countries[1..], content, title).value &&
            MentionedIn(countries[1..][k], content, title) &&
            forall j :: 0 <= j < k ==> !MentionedIn(countries[1..][j], content, title);
          assert countries[k + 1] == countries[1..][k];
          forall j | 0 <= j < k + 1 ensures !MentionedIn(countries[j], content, title) {
            if j > 0 { assert countries[j] == countries[1..][j - 1]; }
          }
        } else {
          forall k | 0 <= k < |countries| ensures !MentionedIn(countries[k], content, title) {
            if k > 0 { assert countries[k] == countries[1..][k - 1]; }
          }
        }
      }
    }
  }

  /** The style phrase of the fallback prompts. */
  function StyleSuffix(country: Option<string>): string
  {
    match country
    case Some(c) => "with " + c + " cultural aesthetic and style"
    case None => "with Korean people, traditional and modern Korean aesthetic, Korean landscape"
  }

  const FallbackHeads: seq<string> := ["Beautiful Korean landscape scene related to ",
    "Korean people enjoying activities related to ", "Modern Korean city or interior design showcasing ",
    "Traditional Korean elements mixed with "]

  /** What stands between the keyword and the style phrase, and what follows the phrase. */
  const FallbackJoints: seq<(string, string)> := [(", ", ", high quality, photorealistic"),
    (", caricature-like but realistic portrayal, ", ""), (", ", ", clean and elegant"), (", ", ", artistic composition")]

  /** One fallback prompt: its head, the keyword, its joint, the style phrase and its tail. */
  function FallbackPrompt(i: nat, keyword: string, style: string): string
    requires i < 4
  {
    FallbackHeads[i] + keyword + FallbackJoints[i].0 + style + FallbackJoints[i].1
  }

  /** The four prompts the desktop front end falls back to when the model call fails. */
  function DesktopFallback(keyword: string, country: Option<string>): (r: seq<string>)
    ensures |r| == 4
  {
    var style := StyleSuffix(country);
    [FallbackPrompt(0, keyword, style), FallbackPrompt(1, keyword, style),
     FallbackPrompt(2, keyword, style), FallbackPrompt(3, keyword, style)]
  }

  /** Each fallback mentions the keyword and the style phrase (and so the country). */
  lemma DesktopFallbackMentions(keyword: string, country: Option<string>)
    ensures forall k :: 0 <= k < 4 ==>
      Contains(DesktopFallback(keyword, country)[k], keyword) &&
      Contains(DesktopFallback(keyword, country)[k], StyleSuffix(country))
  {
    forall k | 0 <= k < 4
      ensures Contains(DesktopFallback(keyword, country)[k], keyword)
      ensures Contains(DesktopFallback(keyword, country)[k], StyleSuffix(country))
    {
      ContainsBoth(FallbackHeads[k], keyword, FallbackJoints[k].0, StyleSuffix(country), FallbackJoints[k].1);
    }
  }

  /** create_image_prompts of desktop_gui.py; a None response is a failed model call. */
  function DesktopImagePrompts(title: string, content: Option<string>, keyword: string, response: Option<string>): seq<string>
  {
    if content.Some? && response.Some? then
      var text := response.value;
      SliceTo(if text == [] then [] else NumberedPrompts(Split(text, '\n'), 0), 4)
    else
      // a missing content raises at content.lower(), before any country is found
      DesktopFallback(keyword, if content.None? then None else FirstMentioned(Countries, content.value, title))
  }

  method CreateDesktopImagePrompts(title: string, content: Option<string>, keyword: string, response: Option<string>)
    returns (prompts: seq<string>)
    ensures prompts == DesktopImagePrompts(title, content, keyword, response)
  {
    if content.None? {
      // content.lower() raises before any country is found and before the model is asked
      return DesktopFallback(keyword, None);
    }
    var country := MentionedCountry(content.value, title);
    if response.None? {
      return DesktopFallback(keyword, country);
    }
    prompts := [];
    if response.value != [] {
      prompts := ParseNumberedPrompts(response.value, 0);
    }
    prompts := SliceTo(prompts, 4);
  }

  /** At most four desktop prompts, each non-empty. */
  lemma DesktopImagePromptsShape(title: string, content: Option<string>, keyword: string, response: Option<string>)
    ensures var r := DesktopImagePrompts(title, content, keyword, response);
      |r| <= 4 && forall k :: 0 <= k < |r| ==> r[k] != []
    ensures content.None? ==> DesktopImagePrompts(title, content, keyword, response) == DesktopFallback(keyword, None)
  {
    var r := DesktopImagePrompts(title, content, keyword, response);
    if content.Some? && response.Some? && response.value != [] {
      var parsed := NumberedPrompts(Split(response.value, '\n'), 0);
      NumberedPromptsShape(Split(response.value, '\n'), 0);
      forall k | 0 <= k < |r| ensures r[k] != [] {
        assert r[k] == parsed[k];
        assert parsed[k] in parsed;
      }
    } else if content.None? || response.None? {
      forall k | 0 <= k < |r| ensures r[k] != [] {
        assert |r[k]| > 0;
      }
    }
  }

  // ---------------------------------------------------------------- image batches

  datatype ImageRecord = ImageRecord(prompt: string, url: string, index: nat)

  /** The records of the web batch: one per prompt the service answered, with the
      1-based position of the prompt. */
  function SkipBatch(ps: seq<string>, image: (nat, string) -> Option<string>): (r: seq<ImageRecord>)
    ensures |r| <= |ps|
  {
    if ps == [] then []
    else
      var m := |ps| - 1;
      var rest := SkipBatch(ps[..m], image);
      match image(m, ps[m])
      case Some(url) => rest + [ImageRecord(ps[m], url, m + 1)]
      case None => rest
  }

  /** generate_dall_e_images of web_app.py over the prompts already computed: a
      failed prompt is skipped and the batch goes on. */
  method GenerateImagesSkipping(prompts: seq<string>, n: int, image: (nat, string) -> Option<string>)
    returns (records: seq<ImageRecord>)
    ensures records == SkipBatch(SliceTo(prompts, n), image)
  {
    var ps := SliceTo(prompts, n);
    records := [];
    var i := 0;
    while i < |ps|
      invariant 0 <= i <= |ps|
      invariant records == SkipBatch(ps[..i], image)
    {
      assert ps[..i + 1][..i] == ps[..i];
      var url := image(i, ps[i]);
      if url.Some? {
        records := records + [ImageRecord(ps[i], url.value, i + 1)];
      }
      i := i + 1;
    }
    assert ps[..i] == ps;
  }

  /** The records generate_dall_e_images of web_app.py returns: the prompts of
      create_image_prompts, then the skipping batch over at most n of them. */
  function WebImages(title: string, keyword: string, n: int, response: Option<string>,
                     image: (nat, string) -> Option<string>): seq<ImageRecord>
  {
    SkipBatch(SliceTo(WebImagePrompts(title, keyword, n, response), n), image)
  }

  method GenerateDallEImages(title: string, keyword: string, n: int, response: Option<string>,
                             image: (nat, string) -> Option<string>)
    returns (records: seq<ImageRecord>)
    ensures records == WebImages(title, keyword, n, response, image)
  {
    var prompts := CreateImagePrompts(title, keyword, n, response);
    records := GenerateImagesSkipping(prompts, n, image);
  }

  /** At most n records come back, each naming one of the first n prompt positions,
      in increasing order. */
  lemma WebImagesBound(title: string, keyword: string, n: int, response: Option<string>,
                       image: (nat, string) -> Option<string>)
    requires n >= 0
    ensures var r := WebImages(title, keyword, n, response, image);
      |r| <= n &&
      (forall k :: 0 <= k < |r| ==> 1 <= r[k].index <= n) &&
      (forall a, b :: 0 <= a < b < |r| ==> r[a].index < r[b].index)
  {
    var ps := SliceTo(WebImagePrompts(title, keyword, n, response), n);
    SkipBatchRecords(ps, image);
    SkipBatchIncreasing(ps, image);
  }

  /** A record names a prompt by its 1-based position and carries the URL the
      service gave for it. */
  predicate RecordOf(ps: seq<string>, image: (nat, string) -> Option<string>, rec: ImageRecord)
  {
    1 <= rec.index <= |ps| && rec.prompt == ps[rec.index - 1] && image(rec.index - 1, rec.prompt) == Some(rec.url)
  }

  /** Every web record is a record of its prompt list. */
  lemma {:induction false} SkipBatchRecords(ps: seq<string>, image: (nat, string) -> Option<string>)
    ensures forall k :: 0 <= k < |SkipBatch(ps, image)| ==> RecordOf(ps, image, SkipBatch(ps, image)[k])
  {
    if ps != [] {
      var m := |ps| - 1;
      SkipBatchRecords(ps[..m], image);
      var rest := SkipBatch(ps[..m], image);
      var r := SkipBatch(ps, image);
      forall k | 0 <= k < |r| ensures RecordOf(ps, image, r[k]) {
        if k < |rest| {
          assert r[k] == rest[k];
          assert RecordOf(ps[..m], image, rest[k]);
          assert ps[..m][rest[k].index - 1] == ps[rest[k].index - 1];
        }
      }
    }
  }

  /** The web record indices strictly increase. */
  lemma {:induction false} SkipBatchIncreasing(ps: seq<string>, image: (nat, string) -> Option<string>)
    ensures forall a, b :: 0 <= a < b < |SkipBatch(ps, image)| ==> SkipBatch(ps, image)[a].index < SkipBatch(ps, image)[b].index
  {
    if ps != [] {
      var m := |ps| - 1;
      SkipBatchIncreasing(ps[..m], image);
      SkipBatchRecords(ps[..m], image);
      var rest := SkipBatch(ps[..m], image);
      var r := SkipBatch(ps, image);
      assert forall k :: 0 <= k < |rest| ==> r[k] == rest[k] && rest[k].index <= m;
      if |r| > |rest| {
        assert r[|rest|].index == m + 1;
      }
    }
  }

  /** Some record carries the 1-based index j. */
  predicate HasIndex(recs: seq<ImageRecord>, j: nat)
  {
    exists k :: 0 <= k < |recs| && recs[k].index == j
  }

  lemma HasIndexSnoc(recs: seq<ImageRecord>, x: ImageRecord, j: nat)
    ensures HasIndex(recs + [x], j) <==> HasIndex(recs, j) || x.index == j
  {
    var r := recs + [x];
    if HasIndex(recs, j) {
      var k :| 0 <= k < |recs| && recs[k].index == j;
      assert r[k] == recs[k];
    }
    if x.index == j {
      assert r[|recs|] == x;
    }
    if HasIndex(r, j) {
      var k :| 0 <= k < |r| && r[k].index == j;
      if k < |recs| { assert recs[k] == r[k]; }
    }
  }

  /** A position has a web record exactly when the service answered for it. */
  lemma {:induction false} SkipBatchComplete(ps: seq<string>, image: (nat, string) -> Option<string>, i: nat)
    requires i < |ps|
    ensures image(i, ps[i]).Some? <==> HasIndex(SkipBatch(ps, image), i + 1)
  {
    var m := |ps| - 1;
    var rest := SkipBatch(ps[..m], image);
    SkipBatchRecords(ps[..m], image);
    if i < m {
      SkipBatchComplete(ps[..m], image, i);
      assert ps[..m][i] == ps[i];
    } else {
      assert !HasIndex(rest, i + 1) by {
        forall k | 0 <= k < |rest| ensures rest[k].index != i + 1 {
          assert RecordOf(ps[..m], image, rest[k]);
        }
      }
    }
    if image(m, ps[m]).Some? {
      HasIndexSnoc(rest, ImageRecord(ps[m], image(m, ps[m]).value, m + 1), i + 1);
    }
  }

  /** The records of the desktop batch: every prompt's image, or nothing at all. */
  function AllOrNothing(ps: seq<string>, image: (nat, string) -> Option<string>): seq<ImageRecord>
  {
    if forall i :: 0 <= i < |ps| ==> image(i, ps[i]).Some? then
      seq(|ps|, i requires 0 <= i < |ps| => ImageRecord(ps[i], image(i, ps[i]).value, i + 1))
    else []
  }

  /** generate_dall_e_images of desktop_gui.py: an invalid answer raises, and the
      handler returns an empty list. */
  method GenerateImagesAll(prompts: seq<string>, image: (nat, string) -> Option<string>)
    returns (records: seq<ImageRecord>)
    ensures records == AllOrNothing(prompts, image)
  {
    records := [];
    var i := 0;
    while i < |prompts|
      invariant 0 <= i <= |prompts|
      invariant forall j :: 0 <= j < i ==> image(j, prompts[j]).Some?
      invariant records == seq(i, j requires 0 <= j < i => ImageRecord(prompts[j], image(j, prompts[j]).value, j + 1))
    {
      var url := image(i, prompts[i]);
      if url.None? {
        return [];
      }
      records := records + [ImageRecord(prompts[i], url.value, i + 1)];
      i := i + 1;
    }
  }

  /** The two policies agree when every call succeeds; otherwise the desktop batch is
      empty while the web batch keeps the successful ones. */
  lemma {:induction false} BatchPolicies(ps: seq<string>, image: (nat, string) -> Option<string>)
    ensures (forall i :: 0 <= i < |ps| ==> image(i, ps[i]).Some?) ==> AllOrNothing(ps, image) == SkipBatch(ps, image)
    ensures (exists i :: 0 <= i < |ps| && image(i, ps[i]).None?) ==>
      AllOrNothing(ps, image) == [] && |SkipBatch(ps, image)| < |ps|
  {
    if ps != [] {
      var m := |ps| - 1;
      BatchPolicies(ps[..m], image);
      if forall i :: 0 <= i < |ps| ==> image(i, ps[i]).Some? {
        assert forall i :: 0 <= i < m ==> ps[..m][i] == ps[i];
        assert AllOrNothing(ps, image) == AllOrNothing(ps[..m], image) + [ImageRecord(ps[m], image(m, ps[m]).value, m + 1)];
      }
      if exists i :: 0 <= i < |ps| && image(i, ps[i]).None? {
        var i :| 0 <= i < |ps| && image(i, ps[i]).None?;
        if i < m {
          assert ps[..m][i] == ps[i];
        }
      }
    }
  }
}
