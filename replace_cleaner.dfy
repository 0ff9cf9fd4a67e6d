/** The snippet sanitiser of blogtitle.py, gui_app.py and NAVER_BLOG_SERACH.py:
    a fixed, ordered chain of str.replace calls followed by str.strip(). */
module ReplaceCleaner {
  import opened Text

  /** The chain's (pattern, replacement) pairs in the order the source applies them:
      the search API's bold markup, then five entity decodings. */
  const Replacements: seq<(string, string)> :=
    [("<b>", ""), ("</b>", ""), ("&quot;", "\""), ("&lt;", "<"), ("&gt;", ">"), ("&amp;", "&"), ("&#39;", "'")]

  predicate Patterned(table: seq<(string, string)>)
  {
    forall k :: 0 <= k < |table| ==> |table[k].0| > 0
  }

  /** text.replace(p1, r1).replace(p2, r2)...: each replacement applied to the
      result of the previous one. */
  function ReplaceChain(text: string, table: seq<(string, string)>): string
    requires Patterned(table)
    decreases |table|
  {
    if table == [] then text
    else ReplaceChain(ReplaceAll(text, table[0].0, table[0].1), table[1..])
  }

  /** clean_html_tags: the replacement chain, then strip(). */
  function CleanHtmlTags(text: string): (r: string)
    ensures NoLeadingSpace(r) && NoTrailingSpace(r)
    ensures |r| <= |ReplaceChain(text, Replacements)|
  {
    Strip(ReplaceChain(text, Replacements))
  }

  /** Removal of the bold markup, `<b>` then `</b>`. */
  function RemoveBold(text: string): string
  {
    ReplaceAll(ReplaceAll(text, "<b>", ""), "</b>", "")
  }

  /** The five entity decodings, in the order the source applies them. */
  function DecodeEntities(text: string): string
  {
    var t := ReplaceAll(ReplaceAll(ReplaceAll(text, "&quot;", "\""), "&lt;", "<"), "&gt;", ">");
    ReplaceAll(ReplaceAll(t, "&amp;", "&"), "&#39;", "'")
  }

  /** The table is the source's expression: bold removal, then entity decoding. */
  lemma CleanChain(text: string)
    ensures CleanHtmlTags(text) == Strip(DecodeEntities(RemoveBold(text)))
  {
    var t := Replacements;
    var a := ReplaceAll(text, "<b>", "");
    var b := ReplaceAll(a, "</b>", "");
    var c := ReplaceAll(b, "&quot;", "\"");
    var d := ReplaceAll(c, "&lt;", "<");
    var e := ReplaceAll(d, "&gt;", ">");
    var f := ReplaceAll(e, "&amp;", "&");
    var g := ReplaceAll(f, "&#39;", "'");
    assert ReplaceChain(text, t) == ReplaceChain(a, t[1..]);
    assert ReplaceChain(a, t[1..]) == ReplaceChain(b, t[2..]);
    assert ReplaceChain(b, t[2..]) == ReplaceChain(c, t[3..]);
    assert ReplaceChain(c, t[3..]) == ReplaceChain(d, t[4..]);
    assert ReplaceChain(d, t[4..]) == ReplaceChain(e, t[5..]);
    assert ReplaceChain(e, t[5..]) == ReplaceChain(f, t[6..]);
    assert ReplaceChain(f, t[6..]) == ReplaceChain(g, t[7..]);
    assert t[7..] == [];
  }

  lemma {:induction false} AbsentCharAbsentPattern(s: string, pat: string)
    requires |pat| > 0 && pat[0] !in s
    ensures !Contains(s, pat)
    decreases |s|
  {
    if s != [] {
      if |pat| <= |s| { assert s[..|pat|][0] == s[0]; }
      AbsentCharAbsentPattern(s[1..], pat);
    }
  }

  /** A chain none of whose patterns occurs leaves the text alone. */
  lemma {:induction false} ChainAbsent(text: string, table: seq<(string, string)>)
    requires Patterned(table)
    requires forall k :: 0 <= k < |table| ==> !Contains(text, table[k].0)
    ensures ReplaceChain(text, table) == text
    decreases |table|
  {
    if table != [] {
      ReplaceAbsent(text, table[0].0, table[0].1);
      ChainAbsent(text, table[1..]);
    }
  }

  /** Text with no bold tag, no ampersand and no surrounding whitespace comes back unchanged. */
  lemma CleanIdentity(text: string)
    requires !Contains(text, "<b>") && !Contains(text, "</b>") && '&' !in text
    requires NoLeadingSpace(text) && NoTrailingSpace(text)
    ensures CleanHtmlTags(text) == text
  {
    CleanChain(text);
    ReplaceAbsent(text, "<b>", "");
    ReplaceAbsent(text, "</b>", "");
    AbsentCharAbsentPattern(text, "&quot;");
    ReplaceAbsent(text, "&quot;", "\"");
    AbsentCharAbsentPattern(text, "&lt;");
    ReplaceAbsent(text, "&lt;", "<");
    AmpFreeTail(text);
  }

  /** A pattern that does not match at the start, and whose first character is
      absent from the rest, is not replaced anywhere. */
  lemma ReplaceMismatch(s: string, pat: string, rep: string)
    requires |pat| > 0 && s != [] && (|s| < |pat| || s[..|pat|] != pat) && pat[0] !in s[1..]
    ensures ReplaceAll(s, pat, rep) == s
  {
    AbsentCharAbsentPattern(s[1..], pat);
    ReplaceAbsent(s[1..], pat, rep);
  }

  /** A pattern that matches at the start is replaced there. */
  lemma ReplaceAtStart(pat: string, z: string, rep: string)
    requires |pat| > 0
    ensures ReplaceAll(pat + z, pat, rep) == rep + ReplaceAll(z, pat, rep)
  {
    assert (pat + z)[..|pat|] == pat && (pat + z)[|pat|..] == z;
  }

  predicate Plain(z: string) { '&' !in z && '<' !in z && NoTrailingSpace(z) }

  /** One ordered pass: `&amp;lt;` decodes to `&lt;` (the `&lt;` decoding has
      already run when `&amp;` is decoded), and cleaning that again gives `<`. So
      applying the cleaner twice differs from applying it once. */
  lemma NotIdempotent(z: string)
    requires Plain(z)
    ensures CleanHtmlTags("&amp;lt;" + z) == "&lt;" + z
    ensures CleanHtmlTags(CleanHtmlTags("&amp;lt;" + z)) == "<" + z
    ensures CleanHtmlTags(CleanHtmlTags("&amp;lt;" + z)) != CleanHtmlTags("&amp;lt;" + z)
  {
    FirstPass(z);
    SecondPass(z);
  }

  lemma FirstPass(z: string)
    requires Plain(z)
    ensures CleanHtmlTags("&amp;lt;" + z) == "&lt;" + z
  {
    DecodeAmpLt(z);
    var d := "&lt;" + z;
    assert d[0] == '&' && (z == [] || d[|d| - 1] == z[|z| - 1]) && (z != [] || d[|d| - 1] == ';');
    CleanOf("&amp;lt;" + z, d);
  }

  lemma SecondPass(z: string)
    requires Plain(z)
    ensures CleanHtmlTags("&lt;" + z) == "<" + z
  {
    DecodeLt(z);
    var d := "<" + z;
    assert d[0] == '<' && (z == [] || d[|d| - 1] == z[|z| - 1]) && (z != [] || d[|d| - 1] == '<');
    CleanOf("&lt;" + z, d);
  }

  /** Cleaning a text without `<` whose decoding has no surrounding whitespace
      gives that decoding. */
  lemma CleanOf(s: string, d: string)
    requires '<' !in s && DecodeEntities(s) == d && NoLeadingSpace(d) && NoTrailingSpace(d)
    ensures CleanHtmlTags(s) == d
  {
    BoldFree(s);
    CleanChain(s);
  }

  lemma BoldFree(s: string)
    requires '<' !in s
    ensures RemoveBold(s) == s
  {
    AbsentCharAbsentPattern(s, "<b>");
    ReplaceAbsent(s, "<b>", "");
    AbsentCharAbsentPattern(s, "</b>");
    ReplaceAbsent(s, "</b>", "");
  }

  /** An entity pattern whose second character differs is not replaced in an
      `&c` text with no further ampersand. */
  lemma PassOverAmp(c: char, t: string, pat: string, rep: string)
    requires |pat| >= 2 && pat[0] == '&' && pat[1] != c && c != '&' && '&' !in t
    ensures ReplaceAll(['&', c] + t, pat, rep) == ['&', c] + t
  {
    var s := ['&', c] + t;
    assert |s| < |pat| || s[..|pat|][1] == c;
    assert s[1..] == [c] + t;
    ReplaceMismatch(s, pat, rep);
  }

  /** The decodings before `&amp;` leave a text starting `&a` alone. */
  lemma LeadingAmpA(t: string)
    requires '&' !in t
    ensures ReplaceAll(ReplaceAll(ReplaceAll(['&', 'a'] + t, "&quot;", "\""), "&lt;", "<"), "&gt;", ">") == ['&', 'a'] + t
  {
    PassOverAmp('a', t, "&quot;", "\"");
    PassOverAmp('a', t, "&lt;", "<");
    PassOverAmp('a', t, "&gt;", ">");
  }

  lemma AmpStep(z: string)
    requires Plain(z)
    ensures ReplaceAll("&amp;lt;" + z, "&amp;", "&") == "&lt;" + z
  {
    var w := "lt;" + z;
    assert "&amp;lt;" + z == "&amp;" + w;
    ReplaceAtStart("&amp;", w, "&");
    assert '&' !in w;
    AbsentCharAbsentPattern(w, "&amp;");
    ReplaceAbsent(w, "&amp;", "&");
  }

  lemma AposStep(z: string)
    requires Plain(z)
    ensures ReplaceAll("&lt;" + z, "&#39;", "'") == "&lt;" + z
  {
    var v := "t;" + z;
    assert '&' !in v;
    PassOverAmp('l', v, "&#39;", "'");
    assert ['&', 'l'] + v == "&lt;" + z;
  }

  lemma DecodeAmpLt(z: string)
    requires Plain(z)
    ensures DecodeEntities("&amp;lt;" + z) == "&lt;" + z
  {
    var t := "mp;lt;" + z;
    assert '&' !in t;
    LeadingAmpA(t);
    assert ['&', 'a'] + t == "&amp;lt;" + z;
    AmpStep(z);
    AposStep(z);
  }

  lemma LtStep(z: string)
    requires Plain(z)
    ensures ReplaceAll(ReplaceAll("&lt;" + z, "&quot;", "\""), "&lt;", "<") == "<" + z
  {
    var v := "t;" + z;
    assert '&' !in v;
    PassOverAmp('l', v, "&quot;", "\"");
    assert ['&', 'l'] + v == "&lt;" + z;
    ReplaceAtStart("&lt;", z, "<");
    AbsentCharAbsentPattern(z, "&lt;");
    ReplaceAbsent(z, "&lt;", "<");
  }

  lemma DecodeLt(z: string)
    requires Plain(z)
    ensures DecodeEntities("&lt;" + z) == "<" + z
  {
    LtStep(z);
    var u := "<" + z;
    assert '&' !in u;
    AmpFreeTail(u);
  }

  /** The last three decodings leave an ampersand-free text alone. */
  lemma AmpFreeTail(u: string)
    requires '&' !in u
    ensures ReplaceAll(ReplaceAll(ReplaceAll(u, "&gt;", ">"), "&amp;", "&"), "&#39;", "'") == u
  {
    AbsentCharAbsentPattern(u, "&gt;");
    ReplaceAbsent(u, "&gt;", ">");
    AbsentCharAbsentPattern(u, "&amp;");
    ReplaceAbsent(u, "&amp;", "&");
    AbsentCharAbsentPattern(u, "&#39;");
    ReplaceAbsent(u, "&#39;", "'");
  }
}
