/** String primitives shared by every front end of the blog pipeline, stated with
    the semantics of the Python built-ins the front ends use (str.strip, str.split,
    str.replace, str.find, str.count, str.join, str.lower, `in`). */
module Text {

  datatype Option<T> = None | Some(value: T)

  /** The characters for which Python's str.isspace() holds. */
  predicate IsSpace(c: char)
  {
    c == ' ' || ('\t' <= c <= '\r') || ('\U{1C}' <= c <= '\U{1F}') || c == '\U{85}' || c == '\U{A0}'
    || c == '\U{1680}' || ('\U{2000}' <= c <= '\U{200A}') || c == '\U{2028}' || c == '\U{2029}'
    || c == '\U{202F}' || c == '\U{205F}' || c == '\U{3000}'
  }

  predicate IsDigit(c: char) { '0' <= c <= '9' }

  predicate IsAsciiUpper(c: char) { 'A' <= c <= 'Z' }

  /** A Hangul syllable, the class `[가-힣]` of the source's regular expressions. */
  predicate IsHangul(c: char) { '가' <= c <= '힣' }

  function LowerChar(c: char): char
  {
    if IsAsciiUpper(c) then (c as int + 32) as char else c
  }

  /** str.lower() on the ASCII range (Hangul has no case). */
  function Lower(s: string): (r: string)
    ensures |r| == |s|
    ensures forall i :: 0 <= i < |s| ==> r[i] == LowerChar(s[i])
  {
    if s == [] then [] else [LowerChar(s[0])] + Lower(s[1..])
  }

  lemma LowerAppend(a: string, b: string)
    ensures Lower(a + b) == Lower(a) + Lower(b)
  {
  }

  predicate NoLeadingSpace(s: string) { s == [] || !IsSpace(s[0]) }
  predicate NoTrailingSpace(s: string) { s == [] || !IsSpace(s[|s| - 1]) }
  predicate AllSpace(s: string) { forall i :: 0 <= i < |s| ==> IsSpace(s[i]) }

  /** str.lstrip(): drop the leading whitespace. */
  function LStrip(s: string): (r: string)
    ensures NoLeadingSpace(r)
    ensures |r| <= |s| && r == s[|s| - |r|..]
    decreases |s|
  {
    if s != [] && IsSpace(s[0]) then
      var r := LStrip(s[1..]);
      assert s[|s| - |r|..] == s[1..][|s| - 1 - |r|..];
      r
    else s
  }

  lemma {:induction false} LStripDropsSpace(s: string)
    ensures AllSpace(s[..|s| - |LStrip(s)|])
    decreases |s|
  {
    if s != [] && IsSpace(s[0]) {
      LStripDropsSpace(s[1..]);
      var r := LStrip(s[1..]);
      assert s[..|s| - |r|] == [s[0]] + s[1..][..|s| - 1 - |r|];
    }
  }

  /** str.rstrip(): drop the trailing whitespace. */
  function RStrip(s: string): (r: string)
    ensures NoTrailingSpace(r)
    ensures |r| <= |s| && r == s[..|r|]
    ensures AllSpace(s[|r|..])
    decreases |s|
  {
    if s != [] && IsSpace(s[|s| - 1]) then
      var r := RStrip(s[..|s| - 1]);
      assert s[|r|..] == s[..|s| - 1][|r|..] + [s[|s| - 1]];
      r
    else s
  }

  /** str.strip(): drop the leading, then the trailing whitespace. */
  function Strip(s: string): (r: string)
    ensures NoLeadingSpace(r) && NoTrailingSpace(r)
    ensures |r| <= |s|
    ensures NoLeadingSpace(s) && NoTrailingSpace(s) ==> r == s
    decreases |s|
  {
    if s != [] && IsSpace(s[0]) then Strip(s[1..])
    else
      var r := RStrip(s);
      assert r == [] || r[0] == s[0];
      r
  }

  /** Strip keeps a contiguous slice of its input. */
  lemma {:induction false} StripSlice(s: string) returns (i: nat)
    ensures i + |Strip(s)| <= |s| && Strip(s) == s[i..i + |Strip(s)|]
    decreases |s|
  {
    if s != [] && IsSpace(s[0]) {
      var j := StripSlice(s[1..]);
      i := j + 1;
      assert s[1..][j..j + |Strip(s)|] == s[i..i + |Strip(s)|];
    } else {
      i := 0;
    }
  }

  /** Strip is rstrip after lstrip. */
  lemma {:induction false} StripBothEnds(s: string)
    ensures Strip(s) == RStrip(LStrip(s))
    decreases |s|
  {
    if s != [] && IsSpace(s[0]) {
      StripBothEnds(s[1..]);
    }
  }

  lemma {:induction false} LStripAllSpace(s: string)
    requires AllSpace(s)
    ensures LStrip(s) == []
    decreases |s|
  {
    if s != [] { LStripAllSpace(s[1..]); }
  }

  lemma StripEmpty(s: string)
    ensures Strip(s) == [] <==> AllSpace(s)
  {
    var l := LStrip(s);
    StripBothEnds(s);
    if Strip(s) == [] {
      LStripDropsSpace(s);
      assert l[0..] == l;
      assert l == [];
      assert s[..|s|] == s;
    }
    if AllSpace(s) { LStripAllSpace(s); }
  }

  predicate StartsWith(s: string, p: string)
  {
    |p| <= |s| && s[..|p|] == p
  }

  /** Python's `sub in s`. */
  predicate Contains(s: string, sub: string)
    decreases |s|
  {
    StartsWith(s, sub) || (s != [] && Contains(s[1..], sub))
  }

  lemma ContainsAt(s: string, sub: string, i: nat)
    requires i + |sub| <= |s| && s[i..i + |sub|] == sub
    ensures Contains(s, sub)
    decreases i
  {
    if i > 0 {
      assert s[1..][i - 1..i - 1 + |sub|] == sub;
      ContainsAt(s[1..], sub, i - 1);
    }
  }

  lemma ContainsWitness(s: string, sub: string) returns (i: nat)
    requires Contains(s, sub)
    ensures i + |sub| <= |s| && s[i..i + |sub|] == sub
    decreases |s|
  {
    if StartsWith(s, sub) {
      i := 0;
    } else {
      var j := ContainsWitness(s[1..], sub);
      i := j + 1;
      assert s[i..i + |sub|] == s[1..][j..j + |sub|];
    }
  }

  lemma ContainsMiddle(a: string, b: string, c: string)
    ensures Contains(a + b + c, b)
  {
    assert (a + b + c)[|a|..|a| + |b|] == b;
    ContainsAt(a + b + c, b, |a|);
  }

  /** Both marked parts of a five-part concatenation occur in it. */
  lemma ContainsBoth(a: string, b: string, c: string, d: string, e: string)
    ensures Contains(a + b + c + d + e, b) && Contains(a + b + c + d + e, d)
  {
    var s := a + b + c + d + e;
    assert s[|a|..|a| + |b|] == b;
    ContainsAt(s, b, |a|);
    assert s[|a| + |b| + |c|..|a| + |b| + |c| + |d|] == d;
    ContainsAt(s, d, |a| + |b| + |c|);
  }

  lemma ContainsSingle(s: string, c: char)
    ensures Contains(s, [c]) <==> c in s
  {
    if c in s {
      var i :| 0 <= i < |s| && s[i] == c;
      assert s[i..i + 1] == [c];
      ContainsAt(s, [c], i);
    }
    if Contains(s, [c]) {
      var i := ContainsWitness(s, [c]);
      assert s[i] == c;
    }
  }

  /** str.replace(pat, rep): every non-overlapping occurrence, left to right. */
  function ReplaceAll(s: string, pat: string, rep: string): string
    requires |pat| > 0
    decreases |s|
  {
    if |s| < |pat| then s
    else if s[..|pat|] == pat then rep + ReplaceAll(s[|pat|..], pat, rep)
    else [s[0]] + ReplaceAll(s[1..], pat, rep)
  }

  lemma ReplaceAbsent(s: string, pat: string, rep: string)
    requires |pat| > 0 && !Contains(s, pat)
    ensures ReplaceAll(s, pat, rep) == s
    decreases |s|
  {
    if |s| >= |pat| {
      ReplaceAbsent(s[1..], pat, rep);
    }
  }

  /** str.split(c) for a one-character separator. */
  function Split(s: string, c: char): (r: seq<string>)
    ensures |r| >= 1
    ensures forall k :: 0 <= k < |r| ==> c !in r[k]
  {
    if s == [] then [[]]
    else
      var rest := Split(s[1..], c);
      if s[0] == c then [[]] + rest else [[s[0]] + rest[0]] + rest[1..]
  }

  /** sep.join(parts). */
  function Join(sep: string, parts: seq<string>): string
  {
    if parts == [] then []
    else if |parts| == 1 then parts[0]
    else parts[0] + sep + Join(sep, parts[1..])
  }

  lemma {:induction false} JoinSplit(s: string, c: char)
    ensures Join([c], Split(s, c)) == s
  {
    if s != [] {
      JoinSplit(s[1..], c);
      var rest := Split(s[1..], c);
      if s[0] != c {
        if |rest| > 1 {
          assert Join([c], [[s[0]] + rest[0]] + rest[1..]) == [s[0]] + rest[0] + [c] + Join([c], rest[1..]);
        }
      }
    }
  }

  lemma {:induction false} SplitNoSeparator(a: string, c: char)
    requires c !in a
    ensures Split(a, c) == [a]
  {
    if a != [] {
      assert a[0] in a;
      assert forall x :: x in a[1..] ==> x in a;
      SplitNoSeparator(a[1..], c);
      assert [a[0]] + a[1..] == a;
    }
  }

  lemma {:induction false} SplitSeparated(a: string, c: char, rest: string)
    requires c !in a
    ensures Split(a + [c] + rest, c) == [a] + Split(rest, c)
  {
    var s := a + [c] + rest;
    if a == [] {
      assert s[1..] == rest;
    } else {
      assert s[1..] == a[1..] + [c] + rest;
      SplitSeparated(a[1..], c, rest);
      assert [s[0]] + a[1..] == a;
    }
  }

  /** Splitting a join on a separator no part contains gives the parts back. */
  lemma {:induction false} SplitJoin(parts: seq<string>, c: char)
    requires |parts| >= 1
    requires forall k :: 0 <= k < |parts| ==> c !in parts[k]
    ensures Split(Join([c], parts), c) == parts
  {
    if |parts| == 1 {
      SplitNoSeparator(parts[0], c);
    } else {
      SplitJoin(parts[1..], c);
      SplitSeparated(parts[0], c, Join([c], parts[1..]));
    }
  }

  /** str.find(sub): the first index of sub, or -1. */
  function Find(s: string, sub: string): (r: int)
    ensures r == -1 || 0 <= r <= |s| - |sub|
    ensures r >= 0 ==> s[r..r + |sub|] == sub
    ensures r == -1 <==> !Contains(s, sub)
    decreases |s|
  {
    if StartsWith(s, sub) then 0
    else if s == [] then -1
    else
      var k := Find(s[1..], sub);
      if k == -1 then -1 else k + 1
  }

  /** The number of non-overlapping occurrences of sub, found left to right
      (str.count, and the length of re.findall for a literal pattern). An empty
      sub matches at every one of the |s| + 1 positions, as in Python. */
  function CountOccurrences(s: string, sub: string): (r: nat)
    ensures |sub| > 0 ==> r <= |s|
    decreases |s|
  {
    if |sub| == 0 then |s| + 1
    else if |s| < |sub| then 0
    else if s[..|sub|] == sub then 1 + CountOccurrences(s[|sub|..], sub)
    else CountOccurrences(s[1..], sub)
  }

  lemma {:induction false} CountZeroIffAbsent(s: string, sub: string)
    requires |sub| > 0
    ensures CountOccurrences(s, sub) == 0 <==> !Contains(s, sub)
    decreases |s|
  {
    if |s| >= |sub| && s[..|sub|] != sub {
      CountZeroIffAbsent(s[1..], sub);
    } else if |s| < |sub| && Contains(s, sub) {
      var i := ContainsWitness(s, sub);
    }
  }

  /** The number of words str.split() (no argument) returns: maximal runs of
      non-whitespace characters. */
  function WordCount(s: string): (r: nat)
    ensures r <= |s|
    ensures r == 0 <==> AllSpace(s)
  {
    if s == [] then 0
    else
      var r := WordCount(s[1..]);
      if !IsSpace(s[0]) && (|s| == 1 || IsSpace(s[1])) then r + 1 else r
  }

  /** Decimal rendering of a natural number, as str() gives it. */
  function NatToString(n: nat): (r: string)
    ensures |r| >= 1
    ensures forall i :: 0 <= i < |r| ==> IsDigit(r[i])
  {
    if n < 10 then [('0' as int + n) as char]
    else NatToString(n / 10) + [('0' as int + n % 10) as char]
  }

  // ---------------------------------------------------------------- sequences

  /** The present values of a sequence of options, in order. */
  function Somes<T>(opts: seq<Option<T>>): (r: seq<T>)
    ensures |r| <= |opts|
  {
    if opts == [] then []
    else
      var rest := Somes(opts[..|opts| - 1]);
      match opts[|opts| - 1]
      case Some(x) => rest + [x]
      case None => rest
  }

  /** A value is collected exactly when some option holds it. */
  lemma {:induction false} SomesMember<T>(opts: seq<Option<T>>, x: T)
    ensures x in Somes(opts) <==> Some(x) in opts
  {
    if opts != [] {
      var m := |opts| - 1;
      SomesMember(opts[..m], x);
      assert opts == opts[..m] + [opts[m]];
    }
  }

  /** Options that are all present give back their values. */
  lemma {:induction false} SomesAll<T>(opts: seq<Option<T>>, xs: seq<T>)
    requires |opts| == |xs|
    requires forall k :: 0 <= k < |opts| ==> opts[k] == Some(xs[k])
    ensures Somes(opts) == xs
  {
    if opts != [] {
      var m := |opts| - 1;
      SomesAll(opts[..m], xs[..m]);
      assert xs == xs[..m] + [xs[m]];
    }
  }

  /** The prefix one longer is the prefix and the next element. */
  lemma PrefixSnoc<T>(s: seq<T>, i: nat)
    requires i < |s|
    ensures s[..i + 1] == s[..i] + [s[i]]
  {
  }

  /** Python's s[:n], where a negative n counts from the end. */
  function SliceTo<T>(s: seq<T>, n: int): (r: seq<T>)
    ensures n >= 0 ==> |r| == if n <= |s| then n else |s|
    ensures n < 0 ==> |r| == if |s| + n >= 0 then |s| + n else 0
    ensures r == s[..|r|]
  {
    if n >= 0 then (if n <= |s| then s[..n] else s)
    else (if |s| + n >= 0 then s[..|s| + n] else [])
  }
}
