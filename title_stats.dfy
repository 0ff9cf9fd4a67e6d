/** analyze_title_patterns of blogtitle.py (two passes) and gui_app.py (one pass):
    count, length histogram, five punctuation/digit flags and a Hangul keyword
    counter over the extracted titles. */
module TitleStats {
  import opened Text

  /** The five features the source counts titles by. */
  datatype Flag = Digit | Question | Exclamation | Parenthesis | Quote

  /** Whether a title shows a feature: re.search(r'\d'), '?' in, '!' in,
      '(' or ')' in, '"' or "'" in. */
  predicate HasFlag(t: string, f: Flag)
  {
    match f
    case Digit => exists i :: 0 <= i < |t| && IsDigit(t[i])
    case Question => '?' in t
    case Exclamation => '!' in t
    case Parenthesis => '(' in t || ')' in t
    case Quote => '"' in t || '\'' in t
  }

  /** The result dictionary. `lengthDistribution` lists (bucket lower bound, count)
      in first-seen order, as the dict keyed by "{lo}-{lo+9}" iterates; the float
      average is kept as the sum of lengths it divides. */
  datatype TitleAnalysis = TitleAnalysis(
    totalCount: nat,
    totalLength: nat,
    lengthDistribution: seq<(nat, nat)>,
    hasNumbers: nat,
    hasQuestionMark: nat,
    hasExclamation: nat,
    hasParentheses: nat,
    hasQuotes: nat,
    keywordFrequency: multiset<string>)

  /** The lower bound of a title's ten-character length bucket. */
  function Bucket(t: string): nat { (|t| / 10) * 10 }

  /** The dictionary key the source uses for a bucket. */
  function Label(lo: nat): string
  {
    NatToString(lo) + "-" + NatToString(lo + 9)
  }

  /** dist[key] = dist.get(key, 0) + 1 on an insertion-ordered dictionary. */
  function AddToBucket(h: seq<(nat, nat)>, lo: nat): (r: seq<(nat, nat)>)
  {
    if h == [] then [(lo, 1)]
    else if h[0].0 == lo then [(lo, h[0].1 + 1)] + h[1..]
    else [h[0]] + AddToBucket(h[1..], lo)
  }

  /** dist.get(lo, 0). */
  function Lookup(h: seq<(nat, nat)>, lo: nat): nat
  {
    if h == [] then 0 else if h[0].0 == lo then h[0].1 else Lookup(h[1..], lo)
  }

  function Total(h: seq<(nat, nat)>): nat
  {
    if h == [] then 0 else h[0].1 + Total(h[1..])
  }

  function Keys(h: seq<(nat, nat)>): set<nat>
  {
    if h == [] then {} else {h[0].0} + Keys(h[1..])
  }

  /** No bucket is listed twice. */
  predicate DistinctKeys(h: seq<(nat, nat)>)
  {
    h == [] || (h[0].0 !in Keys(h[1..]) && DistinctKeys(h[1..]))
  }

  function Histogram(titles: seq<string>): seq<(nat, nat)>
  {
    if titles == [] then [] else AddToBucket(Histogram(titles[..|titles| - 1]), Bucket(titles[|titles| - 1]))
  }

  function TotalLength(titles: seq<string>): nat
  {
    if titles == [] then 0 else TotalLength(titles[..|titles| - 1]) + |titles[|titles| - 1]|
  }

  /** The number of titles showing a feature. */
  function CountFlag(titles: seq<string>, f: Flag): (r: nat)
    ensures r <= |titles|
  {
    if titles == [] then 0
    else CountFlag(titles[..|titles| - 1], f) + (if HasFlag(titles[|titles| - 1], f) then 1 else 0)
  }

  /** The number of titles in a length bucket. */
  function CountBucket(titles: seq<string>, lo: nat): nat
  {
    if titles == [] then 0
    else CountBucket(titles[..|titles| - 1], lo) + (if Bucket(titles[|titles| - 1]) == lo then 1 else 0)
  }

  /** The length of the run of Hangul syllables t starts with. */
  function HangulRun(t: string): (n: nat)
    ensures n <= |t|
    ensures forall i :: 0 <= i < n ==> IsHangul(t[i])
    ensures n < |t| ==> !IsHangul(t[n])
  {
    if t == [] || !IsHangul(t[0]) then 0 else 1 + HangulRun(t[1..])
  }

  /** re.findall(r'[가-힣]{2,}', t): the maximal Hangul runs of length two or more,
      left to right. */
  function Keywords(t: string): seq<string>
    decreases |t|
  {
    if t == [] then []
    else if !IsHangul(t[0]) then Keywords(t[1..])
    else
      var n := HangulRun(t);
      (if n >= 2 then [t[..n]] else []) + Keywords(t[n..])
  }

  /** Counter.update(words) for every title. */
  function KeywordFrequency(titles: seq<string>): multiset<string>
  {
    if titles == [] then multiset{}
    else KeywordFrequency(titles[..|titles| - 1]) + multiset(Keywords(titles[|titles| - 1]))
  }

  /** The analysis the source returns for a list of titles. */
  function Analysis(titles: seq<string>): TitleAnalysis
  {
    TitleAnalysis(|titles|, TotalLength(titles), Histogram(titles),
      CountFlag(titles, Digit), CountFlag(titles, Question), CountFlag(titles, Exclamation),
      CountFlag(titles, Parenthesis), CountFlag(titles, Quote), KeywordFrequency(titles))
  }

  /** analyze_title_patterns of blogtitle.py: a histogram pass, then a pass for the
      flags and keywords. */
  method AnalyzeTitlePatterns(titles: seq<string>) returns (a: TitleAnalysis)
    ensures a == Analysis(titles)
  {
    var dist: seq<(nat, nat)> := [];
    var sum := 0;
    var i := 0;
    while i < |titles|
      invariant 0 <= i <= |titles|
      invariant dist == Histogram(titles[..i]) && sum == TotalLength(titles[..i])
    {
      assert titles[..i + 1][..i] == titles[..i];
      dist := AddToBucket(dist, Bucket(titles[i]));
      sum := sum + |titles[i]|;
      i := i + 1;
    }
    var numbers, questions, exclamations, parentheses, quotes := 0, 0, 0, 0, 0;
    var freq: multiset<string> := multiset{};
    i := 0;
    while i < |titles|
      invariant 0 <= i <= |titles|
      invariant numbers == CountFlag(titles[..i], Digit)
      invariant questions == CountFlag(titles[..i], Question)
      invariant exclamations == CountFlag(titles[..i], Exclamation)
      invariant parentheses == CountFlag(titles[..i], Parenthesis)
      invariant quotes == CountFlag(titles[..i], Quote)
      invariant freq == KeywordFrequency(titles[..i])
    {
      assert titles[..i + 1][..i] == titles[..i];
      var t := titles[i];
      if HasFlag(t, Digit) { numbers := numbers + 1; }
      if '?' in t { questions := questions + 1; }
      if '!' in t { exclamations := exclamations + 1; }
      if '(' in t || ')' in t { parentheses := parentheses + 1; }
      if '"' in t || '\'' in t { quotes := quotes + 1; }
      freq := freq + multiset(Keywords(t));
      i := i + 1;
    }
    assert titles[..|titles|] == titles;
    a := TitleAnalysis(|titles|, sum, dist, numbers, questions, exclamations, parentheses, quotes, freq);
  }

  /** analyze_title_patterns of gui_app.py: the same analysis in a single pass. */
  method AnalyzeTitlePatternsSinglePass(titles: seq<string>) returns (a: TitleAnalysis)
    ensures a == Analysis(titles)
  {
    var dist: seq<(nat, nat)> := [];
    var sum := 0;
    var numbers, questions, exclamations, parentheses, quotes := 0, 0, 0, 0, 0;
    var freq: multiset<string> := multiset{};
    var i := 0;
    while i < |titles|
      invariant 0 <= i <= |titles|
      invariant dist == Histogram(titles[..i]) && sum == TotalLength(titles[..i])
      invariant numbers == CountFlag(titles[..i], Digit)
      invariant questions == CountFlag(titles[..i], Question)
      invariant exclamations == CountFlag(titles[..i], Exclamation)
      invariant parentheses == CountFlag(titles[..i], Parenthesis)
      invariant quotes == CountFlag(titles[..i], Quote)
      invariant freq == KeywordFrequency(titles[..i])
    {
      assert titles[..i + 1][..i] == titles[..i];
      var t := titles[i];
      dist := AddToBucket(dist, Bucket(t));
      sum := sum + |t|;
      if HasFlag(t, Digit) { numbers := numbers + 1; }
      if '?' in t { questions := questions + 1; }
      if '!' in t { exclamations := exclamations + 1; }
      if '(' in t || ')' in t { parentheses := parentheses + 1; }
      if '"' in t || '\'' in t { quotes := quotes + 1; }
      freq := freq + multiset(Keywords(t));
      i := i + 1;
    }
    assert titles[..|titles|] == titles;
    a := TitleAnalysis(|titles|, sum, dist, numbers, questions, exclamations, parentheses, quotes, freq);
  }

  lemma {:induction false} AddToBucketLookup(h: seq<(nat, nat)>, lo: nat, k: nat)
    ensures Lookup(AddToBucket(h, lo), k) == Lookup(h, k) + (if k == lo then 1 else 0)
  {
    if h != [] && h[0].0 != lo { AddToBucketLookup(h[1..], lo, k); }
  }

  lemma {:induction false} AddToBucketTotal(h: seq<(nat, nat)>, lo: nat)
    ensures Total(AddToBucket(h, lo)) == Total(h) + 1
  {
    if h != [] && h[0].0 != lo { AddToBucketTotal(h[1..], lo); }
  }

  lemma {:induction false} AddToBucketKeys(h: seq<(nat, nat)>, lo: nat)
    ensures Keys(AddToBucket(h, lo)) == Keys(h) + {lo}
  {
    if h != [] && h[0].0 != lo { AddToBucketKeys(h[1..], lo); }
  }

  lemma {:induction false} AddToBucketDistinct(h: seq<(nat, nat)>, lo: nat)
    requires DistinctKeys(h)
    ensures DistinctKeys(AddToBucket(h, lo))
  {
    if h != [] && h[0].0 != lo {
      AddToBucketDistinct(h[1..], lo);
      AddToBucketKeys(h[1..], lo);
    }
  }

  /** The buckets listed are exactly those of the titles. */
  lemma {:induction false} HistogramKeys(titles: seq<string>)
    ensures Keys(Histogram(titles)) == set k | 0 <= k < |titles| :: Bucket(titles[k])
  {
    if titles != [] {
      var n := |titles|;
      HistogramKeys(titles[..n - 1]);
      AddToBucketKeys(Histogram(titles[..n - 1]), Bucket(titles[n - 1]));
      var prefix := titles[..n - 1];
      assert forall k :: 0 <= k < n - 1 ==> prefix[k] == titles[k];
    }
  }

  /** Every title is counted in exactly one bucket: the counts add up to the
      number of titles. */
  lemma {:induction false} HistogramTotal(titles: seq<string>)
    ensures Total(Histogram(titles)) == |titles|
  {
    if titles != [] {
      HistogramTotal(titles[..|titles| - 1]);
      AddToBucketTotal(Histogram(titles[..|titles| - 1]), Bucket(titles[|titles| - 1]));
    }
  }

  /** The count stored under a bucket is the number of titles of that length range. */
  lemma {:induction false} HistogramLookup(titles: seq<string>, lo: nat)
    ensures Lookup(Histogram(titles), lo) == CountBucket(titles, lo)
  {
    if titles != [] {
      HistogramLookup(titles[..|titles| - 1], lo);
      AddToBucketLookup(Histogram(titles[..|titles| - 1]), Bucket(titles[|titles| - 1]), lo);
    }
  }

  /** Each bucket occurs once in the distribution. */
  lemma {:induction false} HistogramDistinct(titles: seq<string>)
    ensures DistinctKeys(Histogram(titles))
  {
    if titles != [] {
      HistogramDistinct(titles[..|titles| - 1]);
      AddToBucketDistinct(Histogram(titles[..|titles| - 1]), Bucket(titles[|titles| - 1]));
    }
  }

  /** Each keyword is a run of at least two Hangul syllables occurring in the title. */
  lemma {:induction false} KeywordsWellFormed(t: string)
    ensures forall w :: w in Keywords(t) ==>
      |w| >= 2 && (forall i :: 0 <= i < |w| ==> IsHangul(w[i])) && Contains(t, w)
    decreases |t|
  {
    if t != [] {
      if !IsHangul(t[0]) {
        KeywordsWellFormed(t[1..]);
        forall w | w in Keywords(t[1..]) ensures Contains(t, w) { }
      } else {
        var n := HangulRun(t);
        KeywordsWellFormed(t[n..]);
        forall w | w in Keywords(t) ensures Contains(t, w) {
          if w in Keywords(t[n..]) {
            var j := ContainsWitness(t[n..], w);
            assert t[n + j..n + j + |w|] == w;
            ContainsAt(t, w, n + j);
          } else {
            assert w == t[..n];
            ContainsAt(t, w, 0);
          }
        }
      }
    }
  }

  /** A word the counter holds is a Hangul word of some title. */
  lemma {:induction false} KeywordFrequencySound(titles: seq<string>, w: string)
    requires w in KeywordFrequency(titles)
    ensures |w| >= 2 && exists k :: 0 <= k < |titles| && Contains(titles[k], w)
  {
    var n := |titles|;
    if w in multiset(Keywords(titles[n - 1])) {
      KeywordsWellFormed(titles[n - 1]);
    } else {
      KeywordFrequencySound(titles[..n - 1], w);
      var k :| 0 <= k < n - 1 && Contains(titles[..n - 1][k], w);
      assert titles[..n - 1][k] == titles[k];
    }
  }

  // ------------------------------------------------------------ maximal runs

  /** t[i..j] is a maximal run of Hangul syllables: nothing Hangul on either side. */
  predicate MaximalRun(t: string, i: int, j: int)
  {
    && 0 <= i < j <= |t|
    && (forall k :: i <= k < j ==> IsHangul(t[k]))
    && (i == 0 || !IsHangul(t[i - 1]))
    && (j == |t| || !IsHangul(t[j]))
  }

  /** A maximal run starts at k. */
  predicate RunStart(t: string, k: nat)
    requires k < |t|
  {
    IsHangul(t[k]) && (k == 0 || !IsHangul(t[k - 1]))
  }

  /** The runs of two or more syllables that start at k or later, by their start
      position: a definition by index, independent of how Keywords skips ahead. */
  function RunsFrom(t: string, k: nat): seq<string>
    requires k <= |t|
    decreases |t| - k
  {
    if k == |t| then []
    else
      var n := HangulRun(t[k..]);
      (if RunStart(t, k) && n >= 2 then [t[k..k + n]] else []) + RunsFrom(t, k + 1)
  }

  /** Inside a run no new run starts, so the positions up to its end add nothing. */
  lemma {:induction false} RunsFromInside(t: string, m: nat, e: nat)
    requires 0 < m <= e <= |t|
    requires forall k :: m - 1 <= k < e ==> IsHangul(t[k])
    ensures RunsFrom(t, m) == RunsFrom(t, e)
    decreases e - m
  {
    if m < e {
      assert !RunStart(t, m);
      RunsFromInside(t, m + 1, e);
    }
  }

  /** Keywords of a suffix that does not start in the middle of a run are the runs
      starting there. */
  lemma {:induction false} KeywordsFrom(t: string, k: nat)
    requires k <= |t|
    requires k == 0 || k == |t| || !IsHangul(t[k - 1]) || !IsHangul(t[k])
    ensures Keywords(t[k..]) == RunsFrom(t, k)
    decreases |t| - k
  {
    if k < |t| {
      if !IsHangul(t[k]) {
        KeywordsFrom(t, k + 1);
        SkipNonHangul(t, k);
      } else {
        var n, first := RunStep(t, k);
        KeywordsFrom(t, k + n);
        JoinRun(Keywords(t[k..]), RunsFrom(t, k), first, Keywords(t[k + n..]), RunsFrom(t, k + n));
      }
    }
  }

  /** Two sequences that go on in the same way after the same first part are equal. */
  lemma JoinRun(a: seq<string>, b: seq<string>, first: seq<string>, c: seq<string>, d: seq<string>)
    requires a == first + c && b == first + d && c == d
    ensures a == b
  {
  }

  /** At the start of a run of n syllables both sides take the same run, then go on
      from its end. */
  lemma RunStep(t: string, k: nat) returns (n: nat, first: seq<string>)
    requires k < |t| && IsHangul(t[k]) && (k == 0 || !IsHangul(t[k - 1]))
    ensures 1 <= n && k + n <= |t| && (k + n == |t| || !IsHangul(t[k + n]))
    ensures Keywords(t[k..]) == first + Keywords(t[k + n..])
    ensures RunsFrom(t, k) == first + RunsFrom(t, k + n)
  {
    n := HangulRun(t[k..]);
    KeywordsAtRun(t, k);
    RunsFromAtRun(t, k);
    first := if n >= 2 then [t[k..k + n]] else [];
  }

  /** A character that is not a syllable adds no keyword and starts no run. */
  lemma SkipNonHangul(t: string, k: nat)
    requires k < |t| && !IsHangul(t[k])
    requires Keywords(t[k + 1..]) == RunsFrom(t, k + 1)
    ensures Keywords(t[k..]) == RunsFrom(t, k)
  {
    assert t[k..][1..] == t[k + 1..];
  }

  /** Keywords of a suffix that starts with a run: the run, then what follows it. */
  lemma KeywordsAtRun(t: string, k: nat)
    requires k < |t| && IsHangul(t[k])
    ensures var n := HangulRun(t[k..]);
      k + n <= |t| &&
      Keywords(t[k..]) == (if n >= 2 then [t[k..k + n]] else []) + Keywords(t[k + n..])
  {
    var u := t[k..];
    var n := HangulRun(u);
    assert u[..n] == t[k..k + n];
    assert u[n..] == t[k + n..];
  }

  /** The run starting at a syllable t[k], located in t itself. */
  lemma RunBounds(t: string, k: nat)
    requires k < |t| && IsHangul(t[k])
    ensures var n := HangulRun(t[k..]);
      && 1 <= n && k + n <= |t|
      && (forall i :: k <= i < k + n ==> IsHangul(t[i]))
      && (k + n == |t| || !IsHangul(t[k + n]))
  {
    var u := t[k..];
    var n := HangulRun(u);
    assert u[0] == t[k];
    forall i | k <= i < k + n ensures IsHangul(t[i]) {
      assert u[i - k] == t[i];
    }
    if k + n < |t| {
      assert u[n] == t[k + n];
    }
  }

  /** RunsFrom at the start of a run: the run, then the runs after its end. */
  lemma RunsFromAtRun(t: string, k: nat)
    requires k < |t| && IsHangul(t[k]) && (k == 0 || !IsHangul(t[k - 1]))
    ensures var n := HangulRun(t[k..]);
      && 1 <= n && k + n <= |t| && (k + n == |t| || !IsHangul(t[k + n]))
      && RunsFrom(t, k) == (if n >= 2 then [t[k..k + n]] else []) + RunsFrom(t, k + n)
  {
    var n := HangulRun(t[k..]);
    RunBounds(t, k);
    assert RunStart(t, k);
    RunsFromInside(t, k + 1, k + n);
  }

  /** re.findall(r'[가-힣]{2,}', t) is exactly the maximal runs of two or more
      syllables, in the order they occur. */
  lemma KeywordsAreMaximalRuns(t: string)
    ensures Keywords(t) == RunsFrom(t, 0)
  {
    assert t[0..] == t;
    KeywordsFrom(t, 0);
  }

  lemma {:induction false} RunsFromMaximal(t: string, k: nat, w: string)
    requires k <= |t| && w in RunsFrom(t, k)
    ensures exists i, j :: MaximalRun(t, i, j) && j - i >= 2 && w == t[i..j]
    decreases |t| - k
  {
    var n := HangulRun(t[k..]);
    if RunStart(t, k) && n >= 2 && w == t[k..k + n] {
      forall i | k <= i < k + n ensures IsHangul(t[i]) {
        assert t[k..][i - k] == t[i];
      }
      if k + n < |t| {
        assert t[k..][n] == t[k + n];
      }
      assert MaximalRun(t, k, k + n);
    } else {
      RunsFromMaximal(t, k + 1, w);
    }
  }

  /** Every keyword is a whole maximal run: it cannot be extended on either side. */
  lemma KeywordsMaximal(t: string, w: string)
    requires w in Keywords(t)
    ensures exists i, j :: MaximalRun(t, i, j) && j - i >= 2 && w == t[i..j]
  {
    KeywordsAreMaximalRuns(t);
    RunsFromMaximal(t, 0, w);
  }

  lemma {:induction false} RunsFromComplete(t: string, k: nat, i: int, j: int)
    requires MaximalRun(t, i, j) && j - i >= 2 && k <= i
    ensures t[i..j] in RunsFrom(t, k)
    decreases |t| - k
  {
    if k < i {
      RunsFromComplete(t, k + 1, i, j);
    } else {
      var u := t[i..];
      var n := HangulRun(u);
      forall m | 0 <= m < j - i ensures IsHangul(u[m]) {
        assert u[m] == t[i + m];
      }
      if j < |t| {
        assert u[j - i] == t[j];
      }
      assert n == j - i;
      assert RunStart(t, i);
    }
  }

  /** Every maximal run of two or more syllables is a keyword. */
  lemma KeywordsComplete(t: string, i: int, j: int)
    requires MaximalRun(t, i, j) && j - i >= 2
    ensures t[i..j] in Keywords(t)
  {
    KeywordsAreMaximalRuns(t);
    RunsFromComplete(t, 0, i, j);
  }

  /** The counter holds every maximal run of two or more syllables of every title,
      once per occurrence in each title. */
  lemma {:induction false} KeywordFrequencyComplete(titles: seq<string>, m: int, i: int, j: int)
    requires 0 <= m < |titles| && MaximalRun(titles[m], i, j) && j - i >= 2
    ensures titles[m][i..j] in KeywordFrequency(titles)
    ensures KeywordFrequency(titles)[titles[m][i..j]] >= multiset(RunsFrom(titles[m], 0))[titles[m][i..j]] > 0
  {
    var n := |titles|;
    var w := titles[m][i..j];
    if m == n - 1 {
      KeywordsComplete(titles[m], i, j);
      KeywordsAreMaximalRuns(titles[m]);
    } else {
      assert titles[..n - 1][m] == titles[m];
      KeywordFrequencyComplete(titles[..n - 1], m, i, j);
    }
  }
}
