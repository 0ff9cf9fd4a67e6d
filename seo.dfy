/** The SEO check web_app.py runs on a generated article (_analyze_seo_content) and
    the length settings generate_blog_content starts from. Keyword density is the
    fraction count / words, compared by cross-multiplication instead of in
    floating point. */
module Seo {
  import opened Text

  datatype SeoReport = SeoReport(keywordCount: nat, wordCount: nat, charCount: nat, score: nat)

  /** Case-insensitive, non-overlapping occurrences of the keyword (re.findall of the
      escaped keyword with re.IGNORECASE); an empty keyword matches at every position. */
  function KeywordCount(content: string, keyword: string): nat
  {
    CountOccurrences(Lower(content), Lower(keyword))
  }

  /** Up to 30 points for a keyword used at least five times. */
  function FrequencyPoints(count: nat): (p: nat)
    ensures p <= 30
    ensures count < 5 ==> p == 0
    ensures count >= 5 ==> p == if 3 * count < 30 then 3 * count else 30
  {
    if count >= 5 then (if count * 3 < 30 then count * 3 else 30) else 0
  }

  /** 1.5 <= 100 * count / words <= 4.0, for words > 0. */
  predicate DensityInRange(count: nat, words: nat)
  {
    words > 0 && 3 * words <= 200 * count && 100 * count <= 4 * words
  }

  /** 20 points for a density between 1.5% and 4%, 10 for any other positive density;
      no words means density 0. */
  function DensityPoints(count: nat, words: nat): (p: nat)
    ensures p <= 20
    ensures words == 0 || count == 0 ==> p == 0
    ensures DensityInRange(count, words) ==> p == 20
    ensures words > 0 && count > 0 && !DensityInRange(count, words) ==> p == 10
  {
    if DensityInRange(count, words) then 20
    else if words > 0 && count * 100 > 0 then 10
    else 0
  }

  /** 20, 15 or 10 points from 6000, 3000 or 1500 characters on. */
  function LengthPoints(chars: nat): (p: nat)
    ensures p <= 20
    ensures chars < 1500 <==> p == 0
  {
    if chars >= 6000 then 20 else if chars >= 3000 then 15 else if chars >= 1500 then 10 else 0
  }

  /** Ten points each for bold markup, three blank-line paragraph breaks and a
      numbered-list marker. */
  function MarkerPoints(content: string): (p: nat)
    ensures p <= 30
  {
    (if Contains(content, "**") then 10 else 0)
    + (if CountOccurrences(content, "\n\n") >= 3 then 10 else 0)
    + (if Contains(content, "1.") || Contains(content, "2.") then 10 else 0)
  }

  /** The report _analyze_seo_content returns (the density itself is left as the
      fraction keywordCount / wordCount). */
  function Report(content: string, keyword: string): SeoReport
  {
    var count := KeywordCount(content, keyword);
    var words := WordCount(content);
    var total := FrequencyPoints(count) + DensityPoints(count, words) + LengthPoints(|content|) + MarkerPoints(content);
    SeoReport(count, words, |content|, if total < 100 then total else 100)
  }

  /** _analyze_seo_content: the score is accumulated criterion by criterion. */
  method AnalyzeSeoContent(content: string, keyword: string) returns (report: SeoReport)
    ensures report == Report(content, keyword)
  {
    var keywordCount := CountOccurrences(Lower(content), Lower(keyword));
    var wordCount := WordCount(content);
    var charCount := |content|;
    var bold := Contains(content, "**");
    var paragraphs := CountOccurrences(content, "\n\n");
    var listed := Contains(content, "1.") || Contains(content, "2.");
    assert MarkerPoints(content) ==
      (if bold then 10 else 0) + (if paragraphs >= 3 then 10 else 0) + (if listed then 10 else 0);
    var score: nat := 0;
    if keywordCount >= 5 {
      score := score + (if keywordCount * 3 < 30 then keywordCount * 3 else 30);
    }
    assert score == FrequencyPoints(keywordCount);
    if wordCount > 0 && 3 * wordCount <= 200 * keywordCount && 100 * keywordCount <= 4 * wordCount {
      score := score + 20;
    } else if wordCount > 0 && keywordCount * 100 > 0 {
      score := score + 10;
    }
    assert score == FrequencyPoints(keywordCount) + DensityPoints(keywordCount, wordCount);
    if charCount >= 6000 {
      score := score + 20;
    } else if charCount >= 3000 {
      score := score + 15;
    } else if charCount >= 1500 {
      score := score + 10;
    }
    assert score == FrequencyPoints(keywordCount) + DensityPoints(keywordCount, wordCount) + LengthPoints(charCount);
    if bold {
      score := score + 10;
    }
    if paragraphs >= 3 {
      score := score + 10;
    }
    if listed {
      score := score + 10;
    }
    report := SeoReport(keywordCount, wordCount, charCount, if score < 100 then score else 100);
  }

  /** The four criteria add up to at most 100, so the cap at 100 never changes the
      score: it is exactly the sum of the criteria. */
  lemma ScoreIsSum(content: string, keyword: string)
    ensures var count := KeywordCount(content, keyword); var words := WordCount(content);
      Report(content, keyword).score ==
        FrequencyPoints(count) + DensityPoints(count, words) + LengthPoints(|content|) + MarkerPoints(content)
    ensures Report(content, keyword).score <= 100
  {
  }

  /** Empty content scores nothing for a non-empty keyword. */
  lemma EmptyContentScoresZero(keyword: string)
    requires keyword != []
    ensures Report("", keyword) == SeoReport(0, 0, 0, 0)
  {
    assert !Contains("", "**") && !Contains("", "1.") && !Contains("", "2.");
  }

  /** An empty keyword "occurs" at every position, so the frequency criterion is met
      by any content of four or more characters. */
  lemma EmptyKeywordCount(content: string)
    ensures KeywordCount(content, "") == |content| + 1
  {
  }

  /** Without bold markup, paragraph breaks or list markers, six occurrences in a
      long article of the right density score 18 + 20 + 20 = 58. */
  lemma MarkerlessScore(content: string, keyword: string)
    requires KeywordCount(content, keyword) == 6 && |content| >= 6000
    requires DensityInRange(6, WordCount(content))
    requires MarkerPoints(content) == 0
    ensures Report(content, keyword).score == 58
  {
  }

  // ---------------------------------------------------------------- length settings

  /** A min_chars / max_chars argument: falsy (None, "", 0), convertible by int() to a
      value, or not convertible (int() raises). */
  datatype CharsArg = Falsy | Convertible(value: int) | Unconvertible

  datatype LengthSettings = LengthSettings(minChars: int, maxChars: int, targetKeywordCount: int)

  /** The prologue of generate_blog_content: convert both arguments (defaults 6000
      and 12000, and both defaults again if either conversion raises), raise the
      minimum to 7500, and aim at one keyword per 300 characters, at least 8. */
  function Clamp(minArg: CharsArg, maxArg: CharsArg): (s: LengthSettings)
    ensures s.minChars >= 7500
    ensures s.targetKeywordCount >= 25 && s.targetKeywordCount == s.minChars / 300
    ensures minArg.Unconvertible? || maxArg.Unconvertible? ==> s.minChars == 7500 && s.maxChars == 12000
    ensures minArg.Convertible? && !maxArg.Unconvertible? ==>
      s.minChars == if minArg.value < 7500 then 7500 else minArg.value
    ensures maxArg.Convertible? && !minArg.Unconvertible? ==> s.maxChars == maxArg.value
  {
    var (lo, hi) :=
      if minArg.Unconvertible? || maxArg.Unconvertible? then (6000, 12000)
      else (if minArg.Convertible? then minArg.value else 6000, if maxArg.Convertible? then maxArg.value else 12000);
    var lo' := if lo < 7500 then 7500 else lo;
    LengthSettings(lo', hi, if 8 < lo' / 300 then lo' / 300 else 8)
  }

  /** The raised minimum is not reflected in the maximum: a requested maximum below
      7500 ends below the minimum. */
  lemma ClampKeepsSmallMaximum()
    ensures Clamp(Falsy, Convertible(5000)).minChars > Clamp(Falsy, Convertible(5000)).maxChars
  {
  }
}
