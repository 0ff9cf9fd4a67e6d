/** Reading titles out of a language model's free-text answer.
    - web_app.py /api/generate_titles: numbered lines, markdown unwrapped, a label
      denylist and a length window, then deterministic padding from twelve
      keyword-based fallbacks and truncation to the requested count;
    - web_app.py /generate-titles (legacy route): lines longer than five characters
      not starting with `#`, with an `N.` prefix removed;
    - desktop_gui.py generate_new_titles: the text after `:**` on `**제목 N:**` lines,
      or, when there are none, every line not starting with `#` or `*`. */
module TitleParsing {
  import opened Text
  import opened Numbered

  // ---------------------------------------------------------------- markdown

  predicate AllStars(s: string) { forall i :: 0 <= i < |s| ==> s[i] == '*' }

  /** The length of the run of characters other than `*` that s starts with. */
  function NonStarRun(s: string): (n: nat)
    ensures n <= |s|
    ensures forall i :: 0 <= i < n ==> s[i] != '*'
    ensures n < |s| ==> s[n] == '*'
  {
    if s == [] || s[0] == '*' then 0 else 1 + NonStarRun(s[1..])
  }

  /** re.sub over `\*{m}([^*]+)\*{m}` with replacement `\1`: scanning left to right,
      m stars, one or more other characters and m stars become the characters. */
  function Unwrap(s: string, m: nat): (r: string)
    requires m >= 1
    ensures |r| <= |s|
    decreases |s|
  {
    if s == [] then []
    else if |s| >= m && AllStars(s[..m]) && NonStarRun(s[m..]) >= 1
      && m + NonStarRun(s[m..]) + m <= |s| && AllStars(s[m + NonStarRun(s[m..])..m + NonStarRun(s[m..]) + m]) then
      var k := NonStarRun(s[m..]);
      s[m..m + k] + Unwrap(s[m + k + m..], m)
    else [s[0]] + Unwrap(s[1..], m)
  }

  /** `**x**` then `*x*` unwrapping, in the order the source applies them. */
  function StripMarkdown(s: string): string
  {
    Unwrap(Unwrap(s, 2), 1)
  }

  /** No two consecutive stars. */
  predicate NoDoubleStar(s: string) { forall i :: 0 <= i < |s| - 1 ==> !(s[i] == '*' && s[i + 1] == '*') }

  lemma {:induction false} UnwrapStarFree(s: string, m: nat)
    requires m >= 1 && '*' !in s
    ensures Unwrap(s, m) == s
    decreases |s|
  {
    if s != [] {
      if |s| >= m { assert s[..m][0] == s[0]; assert !AllStars(s[..m]); }
      UnwrapStarFree(s[1..], m);
    }
  }

  lemma {:induction false} UnwrapBoldNoDouble(s: string)
    requires NoDoubleStar(s)
    ensures Unwrap(s, 2) == s
    decreases |s|
  {
    if s != [] {
      if |s| >= 2 { assert s[..2][0] == s[0] && s[..2][1] == s[1]; assert !AllStars(s[..2]); }
      UnwrapBoldNoDouble(s[1..]);
    }
  }

  /** Text without stars is not changed by the markdown pass. */
  lemma StripMarkdownStarFree(s: string)
    requires '*' !in s
    ensures StripMarkdown(s) == s
  {
    UnwrapStarFree(s, 2);
    UnwrapStarFree(s, 1);
  }

  lemma UnwrapBoldWrapped(x: string)
    requires x != [] && '*' !in x
    ensures Unwrap("**" + x + "**", 2) == x
  {
    var bold := "**" + x + "**";
    assert bold[..2] == "**";
    assert bold[2..] == x + "**";
    NonStarRunPrefix(x, "**");
    assert bold[2..2 + |x|] == x;
    assert bold[2 + |x|..2 + |x| + 2] == "**";
    assert bold[2 + |x| + 2..] == [];
  }

  lemma UnwrapItalicWrapped(x: string)
    requires x != [] && '*' !in x
    ensures Unwrap("*" + x + "*", 1) == x
  {
    var italic := "*" + x + "*";
    assert italic[..1] == "*";
    assert italic[1..] == x + "*";
    NonStarRunPrefix(x, "*");
    assert italic[1..1 + |x|] == x;
    assert italic[1 + |x|..1 + |x| + 1] == "*";
    assert italic[1 + |x| + 1..] == [];
  }

  lemma ItalicNoDoubleStar(x: string)
    requires x != [] && '*' !in x
    ensures NoDoubleStar("*" + x + "*")
  {
    var italic := "*" + x + "*";
    forall i | 0 <= i < |italic| - 1 ensures !(italic[i] == '*' && italic[i + 1] == '*') {
      if i == 0 { assert italic[1] == x[0]; } else { assert italic[i] == x[i - 1]; }
    }
  }

  /** `**x**` and `*x*` around star-free text both come back as the text. */
  lemma StripMarkdownWrapped(x: string)
    requires x != [] && '*' !in x
    ensures StripMarkdown("**" + x + "**") == x
    ensures StripMarkdown("*" + x + "*") == x
  {
    UnwrapBoldWrapped(x);
    UnwrapStarFree(x, 1);
    ItalicNoDoubleStar(x);
    UnwrapBoldNoDouble("*" + x + "*");
    UnwrapItalicWrapped(x);
  }

  lemma {:induction false} NonStarRunPrefix(x: string, rest: string)
    requires '*' !in x && (rest == [] || rest[0] == '*')
    ensures NonStarRun(x + rest) == |x|
  {
    if x != [] {
      assert (x + rest)[1..] == x[1..] + rest;
      NonStarRunPrefix(x[1..], rest);
    }
  }

  // ---------------------------------------------------------------- response lines

  /** The stripped, non-empty lines of a response, in order. */
  function ResponseLines(lines: seq<string>): (r: seq<string>)
    ensures forall k :: 0 <= k < |r| ==> r[k] != []
  {
    if lines == [] then []
    else
      var rest := ResponseLines(lines[..|lines| - 1]);
      var l := Strip(lines[|lines| - 1]);
      if l != [] then rest + [l] else rest
  }

  /** `[line.strip() for line in text.split('\n') if line.strip()]`. */
  method StrippedLines(response: string) returns (lines: seq<string>)
    ensures lines == ResponseLines(Split(response, '\n'))
  {
    var raw := Split(response, '\n');
    lines := [];
    var i := 0;
    while i < |raw|
      invariant 0 <= i <= |raw|
      invariant lines == ResponseLines(raw[..i])
    {
      assert raw[..i + 1][..i] == raw[..i];
      var l := Strip(raw[i]);
      if l != [] {
        lines := lines + [l];
      }
      i := i + 1;
    }
    assert raw[..i] == raw;
  }

  // ---------------------------------------------------------------- web parser

  /** The twelve label markers a title must not contain. */
  const Forbidden: seq<string> := ["유형:", "타겟:", "목적:", "키워드:", "특징:", "설명:",
    "**유형**", "**타겟**", "**목적**", "**키워드**", "**특징**", "**설명**"]

  /** The acceptance test of an extracted title: no label marker, and a length
      strictly between 5 and 200 (which makes the source's non-emptiness test
      redundant). */
  predicate Acceptable(t: string)
  {
    5 < |t| < 200 && forall k :: 0 <= k < |Forbidden| ==> !Contains(t, Forbidden[k])
  }

  /** The title a stripped response line yields, if any. */
  function GeneratedTitle(line: string): (r: Option<string>)
  {
    match MatchEnumerated(line)
    case None => None
    case Some(g) =>
      var t := StripMarkdown(Strip(g));
      if Acceptable(t) then Some(t) else None
  }

  /** What each stripped response line yields. */
  function LineTitles(lines: seq<string>): (r: seq<Option<string>>)
    ensures |r| == |lines|
  {
    seq(|lines|, k requires 0 <= k < |lines| => GeneratedTitle(lines[k]))
  }

  /** The titles the stripped response lines yield, in line order. */
  function GeneratedTitles(lines: seq<string>): seq<string>
  {
    Somes(LineTitles(lines))
  }

  /** Every title read from a response passes the acceptance test. */
  lemma GeneratedTitlesAcceptable(lines: seq<string>)
    ensures forall t :: t in GeneratedTitles(lines) ==> Acceptable(t)
  {
    forall t | t in GeneratedTitles(lines) ensures Acceptable(t) {
      SomesMember(LineTitles(lines), t);
    }
  }

  /** The extraction step of /api/generate_titles on the model's answer. */
  function ExtractedTitles(response: string): seq<string>
  {
    if Strip(response) == [] then [] else GeneratedTitles(ResponseLines(Split(response, '\n')))
  }

  /** The title-extraction of /api/generate_titles: nothing from a blank answer,
      otherwise the titles of its stripped non-empty lines. */
  method ParseGeneratedTitles(response: string) returns (titles: seq<string>)
    ensures titles == ExtractedTitles(response)
    ensures forall k :: 0 <= k < |titles| ==> Acceptable(titles[k])
  {
    titles := [];
    if Strip(response) != [] {
      var lines := StrippedLines(response);
      titles := TitlesOfLines(lines);
    }
  }

  /** The loop over the stripped lines of /api/generate_titles. */
  method TitlesOfLines(lines: seq<string>) returns (titles: seq<string>)
    ensures titles == GeneratedTitles(lines)
    ensures forall k :: 0 <= k < |titles| ==> Acceptable(titles[k])
  {
    titles := [];
    ghost var outcomes := LineTitles(lines);
    var i := 0;
    while i < |lines|
      invariant 0 <= i <= |lines|
      invariant titles == Somes(outcomes[..i])
    {
      PrefixSnoc(outcomes, i);
      var m := MatchEnumerated(lines[i]);
      if m.Some? {
        var title := StripMarkdown(Strip(m.value));
        if Acceptable(title) {
          assert outcomes[i] == Some(title);
          titles := titles + [title];
        } else {
          assert outcomes[i].None?;
        }
      } else {
        assert outcomes[i].None?;
      }
      i := i + 1;
    }
    assert outcomes[..i] == outcomes;
    GeneratedTitlesAcceptable(lines);
    assert forall k :: 0 <= k < |titles| ==> titles[k] in titles;
  }

  lemma StripNoSurroundingSpace(s: string)
    requires NoLeadingSpace(s) && NoTrailingSpace(s)
    ensures Strip(s) == s
  {
  }

  /** A title the model writes as `N. title` is read back unchanged when it is
      acceptable, stripped and free of markdown stars. */
  lemma GeneratedTitleOfEnumerated(i: nat, t: string)
    requires Acceptable(t) && '*' !in t && NoLeadingSpace(t) && NoTrailingSpace(t)
    ensures GeneratedTitle(EnumerateLine(i, t)) == Some(t)
  {
    MatchEnumeratedLine(i, t);
    StripNoSurroundingSpace(t);
    StripMarkdownStarFree(t);
  }

  /** A title the parser reads back verbatim: acceptable, stripped, one line, no stars. */
  predicate Clean(t: string)
  {
    Acceptable(t) && '*' !in t && '\n' !in t && NoLeadingSpace(t) && NoTrailingSpace(t)
  }

  lemma {:induction false} ResponseLinesOfStripped(lines: seq<string>)
    requires forall k :: 0 <= k < |lines| ==> lines[k] != [] && NoLeadingSpace(lines[k]) && NoTrailingSpace(lines[k])
    ensures ResponseLines(lines) == lines
  {
    if lines != [] {
      var m := |lines| - 1;
      assert ResponseLines(lines[..m]) == lines[..m] by {
        assert forall k :: 0 <= k < m ==> lines[..m][k] == lines[k];
        ResponseLinesOfStripped(lines[..m]);
      }
      assert Strip(lines[m]) == lines[m];
      PrefixSnoc(lines, m);
      assert lines[..m + 1] == lines;
    }
  }

  lemma GeneratedTitlesOfEnumerated(ts: seq<string>)
    requires forall k :: 0 <= k < |ts| ==> Clean(ts[k])
    ensures GeneratedTitles(Enumerate(ts)) == ts
  {
    var lines := Enumerate(ts);
    forall k | 0 <= k < |ts| ensures GeneratedTitle(lines[k]) == Some(ts[k]) {
      GeneratedTitleOfEnumerated(k, ts[k]);
    }
    SomesAll(LineTitles(lines), ts);
  }

  /** Round trip: an answer listing clean titles as `N. title` lines, one per line,
      is read back to exactly those titles. */
  lemma ExtractedTitlesOfEnumerated(ts: seq<string>)
    requires forall k :: 0 <= k < |ts| ==> Clean(ts[k])
    ensures ExtractedTitles(Join("\n", Enumerate(ts))) == ts
  {
    var lines := Enumerate(ts);
    var response := Join("\n", lines);
    if ts == [] {
      assert Strip(response) == [];
    } else {
      forall k | 0 <= k < |lines| ensures lines[k] != [] && NoLeadingSpace(lines[k]) && NoTrailingSpace(lines[k]) && '\n' !in lines[k] {
        EnumerateLineStripped(k, ts[k]);
      }
      SplitJoin(lines, '\n');
      ResponseLinesOfStripped(lines);
      GeneratedTitlesOfEnumerated(ts);
      assert response[0] == lines[0][0];
      assert !AllSpace(response);
      StripEmpty(response);
    }
  }

  // ---------------------------------------------------------------- padding

  const FallbackSuffixes: seq<string> := [
    " 완벽 가이드", " 초보자를 위한 안내서", " 알아야 할 모든 것", " 실전 활용법",
    " 추천 및 후기", " 성공 사례 분석", " 전문가 노하우", " 단계별 방법론",
    " 트렌드 분석", " 실무 적용기", " 비교 분석", " 선택 가이드"]

  /** The twelve fallback titles for a keyword, in the source's order. */
  function Fallbacks(keyword: string): (r: seq<string>)
    ensures |r| == 12
  {
    seq(12, i requires 0 <= i < 12 => keyword + FallbackSuffixes[i])
  }

  predicate NoDuplicates<T(==)>(s: seq<T>)
  {
    forall i, j :: 0 <= i < j < |s| ==> s[i] != s[j]
  }

  function SuffixKey(s: string): (char, char)
    requires |s| >= 3
  {
    (s[1], s[2])
  }

  lemma SuffixesDistinct()
    ensures NoDuplicates(FallbackSuffixes)
  {
    var keys := [('완', '벽'), ('초', '보'), ('알', '아'), ('실', '전'), ('추', '천'), ('성', '공'),
      ('전', '문'), ('단', '계'), ('트', '렌'), ('실', '무'), ('비', '교'), ('선', '택')];
    assert forall i :: 0 <= i < 12 ==> |FallbackSuffixes[i]| >= 3 && SuffixKey(FallbackSuffixes[i]) == keys[i];
    forall i, j | 0 <= i < j < |FallbackSuffixes| ensures FallbackSuffixes[i] != FallbackSuffixes[j] {
      assert i == 0 || i == 1 || i == 2 || i == 3 || i == 4 || i == 5 || i == 6 || i == 7 || i == 8 || i == 9 || i == 10 || i == 11;
      assert j == 0 || j == 1 || j == 2 || j == 3 || j == 4 || j == 5 || j == 6 || j == 7 || j == 8 || j == 9 || j == 10 || j == 11;
      assert keys[i] != keys[j];
    }
  }

  /** The twelve fallbacks are pairwise different, whatever the keyword. */
  lemma FallbacksDistinct(keyword: string)
    ensures NoDuplicates(Fallbacks(keyword))
  {
    SuffixesDistinct();
    var fb := Fallbacks(keyword);
    forall i, j | 0 <= i < j < 12 ensures fb[i] != fb[j] {
      assert fb[i][|keyword|..] == FallbackSuffixes[i];
      assert fb[j][|keyword|..] == FallbackSuffixes[j];
    }
  }

  /** The elements of fbs not in ex, in order. */
  function Fresh(fbs: seq<string>, ex: seq<string>): (r: seq<string>)
    ensures |r| <= |fbs|
    ensures forall x :: x in r ==> x in fbs && x !in ex
  {
    if fbs == [] then []
    else
      var rest := Fresh(fbs[..|fbs| - 1], ex);
      if fbs[|fbs| - 1] in ex then rest else rest + [fbs[|fbs| - 1]]
  }

  /** The titles /api/generate_titles answers with for the extracted ones. */
  function PaddedTitles(extracted: seq<string>, keyword: string, n: int): seq<string>
  {
    SliceTo(if |extracted| < n then extracted + Fresh(Fallbacks(keyword), extracted) else extracted, n)
  }

  /** The padding and truncation of /api/generate_titles: when fewer than n titles
      were extracted, the fallbacks that are not already present are appended in
      order until there are n; the list is then cut to n (Python slicing). */
  method PadTitles(extracted: seq<string>, keyword: string, n: int) returns (r: seq<string>)
    ensures r == PaddedTitles(extracted, keyword, n)
  {
    var titles := extracted;
    if |titles| < n {
      var fallbacks := Fallbacks(keyword);
      FallbacksDistinct(keyword);
      var j := 0;
      while j < |fallbacks|
        invariant 0 <= j <= |fallbacks|
        invariant titles == extracted + SliceTo(Fresh(fallbacks[..j], extracted), n - |extracted|)
      {
        var fb := fallbacks[j];
        NotInPrefix(fallbacks, j);
        assert fallbacks[..j + 1] == fallbacks[..j] + [fb];
        PadStep(extracted, fallbacks[..j], fb, n, titles);
        if fb !in titles && |titles| < n {
          titles := titles + [fb];
        }
        j := j + 1;
      }
      assert fallbacks[..j] == fallbacks;
    }
    r := SliceTo(titles, n);
  }

  lemma NotInPrefix(s: seq<string>, j: nat)
    requires NoDuplicates(s) && j < |s|
    ensures s[j] !in s[..j]
  {
    forall k | 0 <= k < j ensures s[..j][k] != s[j] { }
  }

  /** One round of the padding loop keeps the closed form: x is the next fallback
      and done the ones before it. */
  lemma PadStep(extracted: seq<string>, done: seq<string>, x: string, n: int, titles: seq<string>)
    requires x !in done && |extracted| < n
    requires titles == extracted + SliceTo(Fresh(done, extracted), n - |extracted|)
    ensures (if x !in titles && |titles| < n then titles + [x] else titles)
      == extracted + SliceTo(Fresh(done + [x], extracted), n - |extracted|)
  {
    FreshSnoc(done, extracted, x);
    if x !in extracted {
      PadStepFresh(extracted, Fresh(done, extracted), x, n, titles);
    }
  }

  lemma FreshSnoc(fbs: seq<string>, ex: seq<string>, x: string)
    ensures Fresh(fbs + [x], ex) == if x in ex then Fresh(fbs, ex) else Fresh(fbs, ex) + [x]
  {
    assert (fbs + [x])[..|fbs|] == fbs;
  }

  /** The padding step for a fallback x that is neither extracted nor among the
      earlier fresh fallbacks. */
  lemma PadStepFresh(extracted: seq<string>, before: seq<string>, x: string, n: int, titles: seq<string>)
    requires |extracted| < n && x !in extracted && x !in before
    requires titles == extracted + SliceTo(before, n - |extracted|)
    ensures (if x !in titles && |titles| < n then titles + [x] else titles)
      == extracted + SliceTo(before + [x], n - |extracted|)
  {
    var k := n - |extracted|;
    if |before| < k {
      assert titles == extracted + before;
      assert x !in titles;
    } else {
      assert SliceTo(before + [x], k) == before[..k];
    }
  }

  /** The elements of fbs that are in ex, in order. */
  function Common(fbs: seq<string>, ex: seq<string>): (r: seq<string>)
    ensures forall x :: x in r ==> x in fbs && x in ex
  {
    if fbs == [] then []
    else
      var rest := Common(fbs[..|fbs| - 1], ex);
      if fbs[|fbs| - 1] in ex then rest + [fbs[|fbs| - 1]] else rest
  }

  /** Every fallback is either fresh or common. */
  lemma {:induction false} FreshCommonCount(fbs: seq<string>, ex: seq<string>)
    ensures |Fresh(fbs, ex)| + |Common(fbs, ex)| == |fbs|
  {
    if fbs != [] {
      FreshCommonCount(fbs[..|fbs| - 1], ex);
    }
  }

  lemma {:induction false} CommonNoDuplicates(fbs: seq<string>, ex: seq<string>)
    requires NoDuplicates(fbs)
    ensures NoDuplicates(Common(fbs, ex))
  {
    if fbs != [] {
      var prefix := fbs[..|fbs| - 1];
      CommonNoDuplicates(prefix, ex);
      assert fbs[|fbs| - 1] !in prefix;
    }
  }

  /** A duplicate-free list drawn from ex is no longer than ex. */
  lemma {:induction false} DistinctIncluded(c: seq<string>, ex: seq<string>)
    requires NoDuplicates(c)
    requires forall x :: x in c ==> x in ex
    ensures |c| <= |ex|
  {
    if c != [] {
      var last := c[|c| - 1];
      var prefix := c[..|c| - 1];
      assert last in c;
      var i :| 0 <= i < |ex| && ex[i] == last;
      var rest := ex[..i] + ex[i + 1..];
      forall y | y in prefix ensures y in rest {
        var p :| 0 <= p < |prefix| && prefix[p] == y;
        assert c[p] == y && y != last;
        assert y in c;
        var m :| 0 <= m < |ex| && ex[m] == y;
        if m < i { assert rest[m] == y; } else { assert rest[m - 1] == y; }
      }
      assert NoDuplicates(prefix) by {
        forall a, b | 0 <= a < b < |prefix| ensures prefix[a] != prefix[b] { assert prefix[a] == c[a] && prefix[b] == c[b]; }
      }
      DistinctIncluded(prefix, rest);
    }
  }

  /** Padding always ends with exactly n titles when 0 <= n <= 12, never more than n
      for any n >= 0, and keeps the extracted titles first. */
  lemma PadTitlesLength(extracted: seq<string>, keyword: string, n: int)
    ensures var padded := PaddedTitles(extracted, keyword, n);
      (n >= 0 ==> |padded| <= n) &&
      (0 <= n <= 12 ==> |padded| == n) &&
      (|extracted| < n ==> padded[..|extracted|] == extracted)
  {
    if |extracted| < n <= 12 {
      var fbs := Fallbacks(keyword);
      FallbacksDistinct(keyword);
      FreshCommonCount(fbs, extracted);
      CommonNoDuplicates(fbs, extracted);
      DistinctIncluded(Common(fbs, extracted), extracted);
    }
  }

  /** Appended fallbacks are titles not already extracted, so a duplicate-free list stays so. */
  lemma PadTitlesNoDuplicates(extracted: seq<string>, keyword: string, n: int)
    requires NoDuplicates(extracted)
    ensures NoDuplicates(PaddedTitles(extracted, keyword, n))
  {
    var fbs := Fallbacks(keyword);
    FallbacksDistinct(keyword);
    var novel := Fresh(fbs, extracted);
    FreshNoDuplicates(fbs, extracted);
    var all := extracted + novel;
    forall i, j | 0 <= i < j < |all| ensures all[i] != all[j] {
      if j >= |extracted| && i < |extracted| {
        assert all[j] in novel;
        assert all[i] in extracted;
      } else if i >= |extracted| {
        assert all[i] == novel[i - |extracted|] && all[j] == novel[j - |extracted|];
      }
    }
  }

  lemma {:induction false} FreshNoDuplicates(fbs: seq<string>, ex: seq<string>)
    requires NoDuplicates(fbs)
    ensures NoDuplicates(Fresh(fbs, ex))
  {
    if fbs != [] {
      var n := |fbs|;
      var prefix := fbs[..n - 1];
      FreshNoDuplicates(prefix, ex);
      assert fbs[n - 1] !in prefix;
    }
  }

  // ---------------------------------------------------------------- legacy web parser

  /** The title one line yields on the legacy route. */
  function LegacyTitle(line: string): (r: Option<string>)
    ensures r.Some? ==> r.value != []
  {
    var l := Strip(line);
    if l != [] && l[0] != '#' && |l| > 5 then
      var cleaned := StripNumberDot(l);
      if cleaned != [] then Some(cleaned) else None
    else None
  }

  function LegacyTitles(lines: seq<string>): (r: seq<string>)
    ensures forall k :: 0 <= k < |r| ==> r[k] != []
  {
    if lines == [] then []
    else
      var rest := LegacyTitles(lines[..|lines| - 1]);
      match LegacyTitle(lines[|lines| - 1])
      case Some(t) => rest + [t]
      case None => rest
  }

  /** The parsing loop of the legacy /generate-titles route. */
  method ParseLegacyTitles(response: string) returns (titles: seq<string>)
    ensures titles == LegacyTitles(Split(response, '\n'))
  {
    titles := [];
    var lines := Split(response, '\n');
    var i := 0;
    while i < |lines|
      invariant 0 <= i <= |lines|
      invariant titles == LegacyTitles(lines[..i])
    {
      assert lines[..i + 1][..i] == lines[..i];
      var line := Strip(lines[i]);
      if line != [] && line[0] != '#' && |line| > 5 {
        var cleaned := StripNumberDot(line);
        if cleaned != [] {
          titles := titles + [cleaned];
        }
      }
      i := i + 1;
    }
    assert lines[..i] == lines;
  }

  /** An enumerated title long enough to pass the filter loses exactly its `N. `. */
  lemma LegacyTitleOfEnumerated(i: nat, t: string)
    requires |t| > 2 && NoLeadingSpace(t) && NoTrailingSpace(t)
    ensures LegacyTitle(EnumerateLine(i, t)) == Some(t)
  {
    var line := EnumerateLine(i, t);
    var num := NatToString(i + 1);
    assert line == num + ". " + t;
    assert line[0] == num[0];
    assert line[|line| - 1] == t[|t| - 1];
    StripNoSurroundingSpace(line);
    StripNumberDotEnumerated(i, t);
  }

  // ---------------------------------------------------------------- desktop parser

  const TitleMarker := "**제목"
  const LabelEnd := ":**"

  /** The title a `**제목 N:** text` line yields: the stripped text after the first `:**`. */
  function MarkedTitle(line: string): (r: Option<string>)
    ensures r.Some? ==> r.value != [] && NoLeadingSpace(r.value) && NoTrailingSpace(r.value)
  {
    if Contains(line, TitleMarker) && Contains(line, LabelEnd) then
      var t := Strip(line[Find(line, LabelEnd) + 3..]);
      if t != [] then Some(t) else None
    else None
  }

  function MarkedTitles(lines: seq<string>): seq<string>
  {
    if lines == [] then []
    else
      var rest := MarkedTitles(lines[..|lines| - 1]);
      match MarkedTitle(lines[|lines| - 1])
      case Some(t) => rest + [t]
      case None => rest
  }

  /** The lines shown when no line is marked: those not starting with `#` or `*`. */
  function PlainLines(lines: seq<string>): (r: seq<string>)
    ensures forall k :: 0 <= k < |r| ==> r[k] in lines && (r[k] == [] || (r[k][0] != '#' && r[k][0] != '*'))
  {
    if lines == [] then []
    else
      var rest := PlainLines(lines[..|lines| - 1]);
      var l := lines[|lines| - 1];
      if l != [] && l[0] != '#' && l[0] != '*' then rest + [l] else rest
  }

  /** The titles the desktop front end lists for a response. */
  function DesktopTitles(response: string): seq<string>
  {
    var lines := ResponseLines(Split(response, '\n'));
    if MarkedTitles(lines) != [] then MarkedTitles(lines) else PlainLines(lines)
  }

  /** The parsing in generate_new_titles: marked titles, else the plain lines. */
  method ParseDesktopTitles(response: string) returns (shown: seq<string>)
    ensures shown == DesktopTitles(response)
  {
    var lines := StrippedLines(response);
    var extracted := ExtractMarkedTitles(lines);
    if extracted != [] {
      return extracted;
    }
    shown := SelectPlainLines(lines);
  }

  /** The `**제목 N:**` loop of generate_new_titles. */
  method ExtractMarkedTitles(lines: seq<string>) returns (extracted: seq<string>)
    ensures extracted == MarkedTitles(lines)
  {
    extracted := [];
    var i := 0;
    while i < |lines|
      invariant 0 <= i <= |lines|
      invariant extracted == MarkedTitles(lines[..i])
    {
      MarkedTitlesStep(lines, i);
      var line := lines[i];
      if Contains(line, TitleMarker) && Contains(line, LabelEnd) {
        var title := Strip(line[Find(line, LabelEnd) + 3..]);
        if title != [] {
          assert MarkedTitle(line) == Some(title);
          extracted := extracted + [title];
        } else {
          assert MarkedTitle(line).None?;
        }
      } else {
        assert MarkedTitle(line).None?;
      }
      i := i + 1;
    }
    assert lines[..i] == lines;
  }

  lemma MarkedTitlesStep(lines: seq<string>, i: nat)
    requires i < |lines|
    ensures MarkedTitles(lines[..i + 1]) ==
      MarkedTitles(lines[..i]) + (if MarkedTitle(lines[i]).Some? then [MarkedTitle(lines[i]).value] else [])
  {
    assert lines[..i + 1][..i] == lines[..i];
  }

  /** The fallback loop of generate_new_titles. */
  method SelectPlainLines(lines: seq<string>) returns (shown: seq<string>)
    ensures shown == PlainLines(lines)
  {
    shown := [];
    var i := 0;
    while i < |lines|
      invariant 0 <= i <= |lines|
      invariant shown == PlainLines(lines[..i])
    {
      assert lines[..i + 1][..i] == lines[..i];
      var line := lines[i];
      if line != [] && line[0] != '#' && line[0] != '*' {
        shown := shown + [line];
      }
      i := i + 1;
    }
    assert lines[..i] == lines;
  }

  /** A `**제목 N:** text` line yields its stripped text. */
  lemma MarkedTitleOfLabel(n: nat, t: string)
    requires t != [] && NoLeadingSpace(t) && NoTrailingSpace(t)
    ensures MarkedTitle(TitleMarker + " " + NatToString(n) + LabelEnd + " " + t) == Some(t)
  {
    var num := NatToString(n);
    var head := TitleMarker + " " + num;
    assert ':' !in head by {
      forall k | 0 <= k < |head| ensures head[k] != ':' {
        if k > |TitleMarker| { assert head[k] == num[k - |TitleMarker| - 1]; assert IsDigit(num[k - |TitleMarker| - 1]); }
      }
    }
    assert head[..|TitleMarker|] == TitleMarker;
    LabelAfter(head, t);
  }

  /** After a colon-free head that starts with the marker, the first `:**` ends the label. */
  lemma LabelAfter(head: string, t: string)
    requires ':' !in head && StartsWith(head, TitleMarker)
    requires t != [] && NoLeadingSpace(t) && NoTrailingSpace(t)
    ensures MarkedTitle(head + LabelEnd + " " + t) == Some(t)
  {
    var line := head + LabelEnd + " " + t;
    assert line[..|TitleMarker|] == TitleMarker;
    ContainsAt(line, TitleMarker, 0);
    FindAfterColonFree(head, " " + t);
    assert line == head + LabelEnd + (" " + t);
    assert line[|head| + 3..] == " " + t;
    MarkedTitleAt(line, t);
  }

  lemma FindAfterColonFree(head: string, rest: string)
    requires ':' !in head
    ensures Contains(head + LabelEnd + rest, LabelEnd)
    ensures Find(head + LabelEnd + rest, LabelEnd) == |head|
  {
    var line := head + LabelEnd + rest;
    assert line[|head|..|head| + 3] == LabelEnd;
    ContainsAt(line, LabelEnd, |head|);
    FindFirst(line, LabelEnd, |head|);
    forall k | 0 <= k < |head| ensures line[k] != ':' {
      assert line[k] == head[k];
    }
    var f := Find(line, LabelEnd);
    assert line[f..f + 3] == LabelEnd;
    assert line[f] == line[f..f + 3][0];
  }

  lemma MarkedTitleAt(line: string, t: string)
    requires Contains(line, TitleMarker) && Contains(line, LabelEnd)
    requires t != [] && NoLeadingSpace(t) && NoTrailingSpace(t)
    requires line[Find(line, LabelEnd) + 3..] == " " + t
    ensures MarkedTitle(line) == Some(t)
  {
    StripSpaceThen(t);
  }

  lemma StripSpaceThen(t: string)
    requires NoLeadingSpace(t) && NoTrailingSpace(t)
    ensures Strip(" " + t) == t
  {
    assert (" " + t)[1..] == t;
  }

  /** Find returns the first occurrence. */
  lemma {:induction false} FindFirst(s: string, sub: string, i: nat)
    requires i + |sub| <= |s| && s[i..i + |sub|] == sub
    ensures 0 <= Find(s, sub) <= i
    decreases i
  {
    if i > 0 && !StartsWith(s, sub) {
      assert s[1..][i - 1..i - 1 + |sub|] == sub;
      FindFirst(s[1..], sub, i - 1);
    }
  }
}
