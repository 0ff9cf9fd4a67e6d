/** Numbered-line recognition shared by the title and image-prompt parsers, and the
    1-based enumeration the analysis prompt renders titles with. */
module Numbered {
  import opened Text

  /** The length of the run of ASCII digits s starts with. */
  function DigitRun(s: string): (n: nat)
    ensures n <= |s|
    ensures forall i :: 0 <= i < n ==> IsDigit(s[i])
    ensures n < |s| ==> !IsDigit(s[n])
  {
    if s == [] || !IsDigit(s[0]) then 0 else 1 + DigitRun(s[1..])
  }

  /** re.match(r'^\d+\.', s): a digit run followed by a dot. */
  predicate StartsNumberDot(s: string)
  {
    var d := DigitRun(s);
    0 < d < |s| && s[d] == '.'
  }

  /** re.sub(r'^\d+\.\s*', '', s): the digits, the dot and the whitespace after it go. */
  function StripNumberDot(s: string): (r: string)
    ensures !StartsNumberDot(s) ==> r == s
    ensures StartsNumberDot(s) ==> |r| <= |s| - 2 && IsDigit(s[0])
  {
    if StartsNumberDot(s) then LStrip(s[DigitRun(s) + 1..]) else s
  }

  /** A separator of `^\d+[.)\s]`. */
  predicate IsEnumeratorEnd(c: char) { c == '.' || c == ')' || IsSpace(c) }

  /** Group 1 of re.match(r'^\d+[.)\s]\s*(.+)', s) on a single line: a digit run, one
      of `.`, `)` or whitespace, optional whitespace, then the rest of the line. When
      only whitespace follows the separator, the greedy `\s*` gives its last
      character back to `(.+)`. */
  function MatchEnumerated(s: string): (r: Option<string>)
    ensures r.Some? ==> |r.value| >= 1 && |s| >= 2 && IsDigit(s[0])
  {
    var d := DigitRun(s);
    if d == 0 || d >= |s| || !IsEnumeratorEnd(s[d]) then None
    else
      var rest := s[d + 1..];
      var body := LStrip(rest);
      if body != [] then Some(body)
      else if rest != [] then Some([rest[|rest| - 1]])
      else None
  }

  /** f"{i+1}. {title}" for the zero-based position i. */
  function EnumerateLine(i: nat, title: string): string
  {
    NatToString(i + 1) + ". " + title
  }

  lemma {:induction false} DigitRunOfDigits(p: string, tail: string)
    requires forall i :: 0 <= i < |p| ==> IsDigit(p[i])
    requires tail == [] || !IsDigit(tail[0])
    ensures DigitRun(p + tail) == |p|
  {
    if p != [] {
      assert (p + tail)[1..] == p[1..] + tail;
      DigitRunOfDigits(p[1..], tail);
    }
  }

  lemma LStripSpaceThen(title: string)
    ensures LStrip(" " + title) == LStrip(title)
  {
    assert (" " + title)[1..] == title;
  }

  /** The position just after the `N.` of an enumerated line. */
  lemma EnumeratedShape(i: nat, title: string)
    ensures var num := NatToString(i + 1); var s := EnumerateLine(i, title);
      DigitRun(s) == |num| && s[|num|] == '.' && s[|num| + 1..] == " " + title
  {
    var num := NatToString(i + 1);
    var s := EnumerateLine(i, title);
    assert s == num + (". " + title);
    DigitRunOfDigits(num, ". " + title);
  }

  /** The `N.` prefix the legacy parsers strip is exactly what the enumeration adds. */
  lemma StripNumberDotEnumerated(i: nat, title: string)
    requires NoLeadingSpace(title)
    ensures StripNumberDot(EnumerateLine(i, title)) == title
  {
    var num := NatToString(i + 1);
    assert EnumerateLine(i, title) == num + "." + (" " + title);
    StripNumberDotShape(num, " " + title);
    LStripSpaceThen(title);
  }

  /** `^\d+\.\s*` removes a digit run, its dot and the whitespace after it. */
  lemma StripNumberDotShape(p: string, t: string)
    requires p != [] && forall k :: 0 <= k < |p| ==> IsDigit(p[k])
    ensures StripNumberDot(p + "." + t) == LStrip(t)
  {
    DotShape(p, t);
  }

  /** A digit run, a dot, then t. */
  lemma DotShape(p: string, t: string)
    requires p != [] && forall k :: 0 <= k < |p| ==> IsDigit(p[k])
    ensures var s := p + "." + t; DigitRun(s) == |p| && s[|p|] == '.' && s[|p| + 1..] == t
  {
    var s := p + "." + t;
    assert s == p + ("." + t);
    DigitRunOfDigits(p, "." + t);
    assert s[|p| + 1..] == t;
  }

  /** The web title parser reads an enumerated line back to its title. */
  lemma MatchEnumeratedLine(i: nat, title: string)
    requires title != [] && NoLeadingSpace(title)
    ensures MatchEnumerated(EnumerateLine(i, title)) == Some(title)
  {
    var num := NatToString(i + 1);
    assert EnumerateLine(i, title) == num + "." + (" " + title);
    LStripSpaceThen(title);
    MatchEnumeratedShape(num, " " + title);
  }

  /** After a digit run and a dot, the pattern captures the rest without its
      leading whitespace, when that is not empty. */
  lemma MatchEnumeratedShape(p: string, t: string)
    requires p != [] && forall k :: 0 <= k < |p| ==> IsDigit(p[k])
    requires LStrip(t) != []
    ensures MatchEnumerated(p + "." + t) == Some(LStrip(t))
  {
    DotShape(p, t);
  }

  /** A line that does not start with a digit is left alone. */
  lemma StripNumberDotPlain(s: string)
    requires s == [] || !IsDigit(s[0])
    ensures StripNumberDot(s) == s && MatchEnumerated(s).None?
  {
  }

  /** The numbered list `1. t1`, `2. t2`, ... a language model is asked to answer with. */
  function Enumerate(ts: seq<string>): (r: seq<string>)
    ensures |r| == |ts|
  {
    seq(|ts|, k requires 0 <= k < |ts| => EnumerateLine(k, ts[k]))
  }

  /** An enumerated one-line title is a one-line, digit-led line without surrounding whitespace. */
  lemma EnumerateLineStripped(i: nat, t: string)
    requires t != [] && NoTrailingSpace(t) && '\n' !in t
    ensures var line := EnumerateLine(i, t);
      line != [] && IsDigit(line[0]) && NoLeadingSpace(line) && NoTrailingSpace(line) && '\n' !in line
  {
    var line := EnumerateLine(i, t);
    var num := NatToString(i + 1);
    assert line == num + ". " + t;
    forall j | 0 <= j < |line| ensures line[j] != '\n' {
      if j < |num| {
        assert line[j] == num[j];
      } else if j >= |num| + 2 {
        assert line[j] == t[j - |num| - 2];
      }
    }
    assert line[0] == num[0];
    assert line[|line| - 1] == t[|t| - 1];
  }
}
