/** The archive name web_app.py gives the downloaded images (download_images): the
    session keyword reduced to letters, digits, spaces, hyphens and underscores. */
module WebDownload {
  import opened Text

  const DefaultKeyword := "images"
  const FallbackStem := "generated_images"
  const ArchiveSuffix := "_images.zip"

  /** str.isalnum() on ASCII letters and digits and on Hangul syllables. */
  predicate IsAlnum(c: char)
  {
    'a' <= c <= 'z' || 'A' <= c <= 'Z' || IsDigit(c) || IsHangul(c)
  }

  predicate Safe(c: char) { IsAlnum(c) || c == ' ' || c == '-' || c == '_' }

  predicate AllSafe(s: string) { forall i :: 0 <= i < |s| ==> Safe(s[i]) }

  /** "".join(c for c in keyword if c.isalnum() or c in (' ', '-', '_')): exactly the
      safe characters of s survive, and a single character survives exactly when it
      is safe. */
  function SafeChars(s: string): (r: string)
    ensures |r| <= |s| && AllSafe(r)
    ensures forall c :: c in r <==> c in s && Safe(c)
    ensures |s| == 1 ==> (r == s <==> Safe(s[0])) && (r == [] <==> !Safe(s[0]))
  {
    if s == [] then []
    else
      var rest := SafeChars(s[1..]);
      assert forall c :: c in s <==> c == s[0] || c in s[1..];
      if Safe(s[0]) then [s[0]] + rest else rest
  }

  /** The generator expression keeps characters one at a time: filtering a
      concatenation filters each part. With the one-character case this fixes the
      result on every input. */
  lemma {:induction false} SafeCharsAppend(a: string, b: string)
    ensures SafeChars(a + b) == SafeChars(a) + SafeChars(b)
  {
    if a != [] {
      assert (a + b)[1..] == a[1..] + b;
      SafeCharsAppend(a[1..], b);
    } else {
      assert a + b == b;
    }
  }

  /** The stem of the archive name; `keyword` is None when the session has none.
      The stem is the safe characters of the keyword (or of "images") with trailing
      spaces removed, and "generated_images" when every character of the keyword is
      unsafe or a space. */
  function SafeKeyword(keyword: Option<string>): (r: string)
    ensures r != [] && AllSafe(r) && NoTrailingSpace(r)
    ensures var k := if keyword.Some? then keyword.value else DefaultKeyword;
      && ((forall i :: 0 <= i < |k| ==> !Safe(k[i]) || k[i] == ' ') ==> r == FallbackStem)
      && (!(forall i :: 0 <= i < |k| ==> !Safe(k[i]) || k[i] == ' ') ==> r == RStrip(SafeChars(k)))
  {
    var k := if keyword.Some? then keyword.value else DefaultKeyword;
    var safe := RStrip(SafeChars(k));
    assert AllSafe(safe) by {
      forall i | 0 <= i < |safe| ensures Safe(safe[i]) {
        assert safe[i] == SafeChars(k)[i];
      }
    }
    SafeCharsBlank(k);
    if safe == [] then FallbackStem else safe
  }

  /** The safe characters strip to nothing exactly when every character is unsafe
      or a space: the only safe whitespace character is ' '. */
  lemma SafeCharsBlank(k: string)
    ensures RStrip(SafeChars(k)) == [] <==> forall i :: 0 <= i < |k| ==> !Safe(k[i]) || k[i] == ' '
  {
    var f := SafeChars(k);
    var r := RStrip(f);
    if r == [] {
      assert f[0..] == f;
      forall i | 0 <= i < |k| && Safe(k[i]) ensures k[i] == ' ' {
        assert k[i] in f;
        var j :| 0 <= j < |f| && f[j] == k[i];
        assert IsSpace(f[0..][j]);
        SafeSpace(k[i]);
      }
    } else {
      assert r[|r| - 1] == f[|r| - 1];
      assert r[|r| - 1] in f;
      assert r[|r| - 1] in k;
      var j :| 0 <= j < |k| && k[j] == r[|r| - 1];
      SafeSpace(k[j]);
    }
  }

  /** Letters, digits, Hangul syllables, '-' and '_' are not whitespace. */
  lemma SafeSpace(c: char)
    requires Safe(c)
    ensures IsSpace(c) <==> c == ' '
  {
  }

  /** f"{safe_keyword}_images.zip". */
  function ZipFileName(keyword: Option<string>): (r: string)
    ensures StartsWith(r, SafeKeyword(keyword)) && |r| == |SafeKeyword(keyword)| + |ArchiveSuffix|
    ensures r[|r| - |ArchiveSuffix|..] == ArchiveSuffix
    ensures '/' !in r && '\\' !in r
  {
    var stem := SafeKeyword(keyword);
    var r := stem + ArchiveSuffix;
    assert r[|r| - |ArchiveSuffix|..] == ArchiveSuffix;
    NameNoSeparator(stem);
    r
  }

  /** No safe character, and no character of the suffix, separates path components. */
  lemma NameNoSeparator(stem: string)
    requires AllSafe(stem)
    ensures '/' !in stem + ArchiveSuffix && '\\' !in stem + ArchiveSuffix
  {
    var r := stem + ArchiveSuffix;
    forall i | 0 <= i < |r| ensures r[i] != '/' && r[i] != '\\' {
      if i < |stem| {
        assert Safe(stem[i]);
      } else {
        assert r[i] == ArchiveSuffix[i - |stem|];
      }
    }
  }

  lemma {:induction false} SafeCharsOfSafe(s: string)
    requires AllSafe(s)
    ensures SafeChars(s) == s
  {
    if s != [] {
      SafeCharsOfSafe(s[1..]);
    }
  }

  /** A keyword that is already safe and has no trailing space is its own stem. */
  lemma SafeKeywordOfSafe(k: string)
    requires k != [] && AllSafe(k) && NoTrailingSpace(k)
    ensures SafeKeyword(Some(k)) == k
  {
    SafeCharsOfSafe(k);
  }

  /** Sanitising a stem again changes nothing. */
  lemma SafeKeywordIdempotent(keyword: Option<string>)
    ensures SafeKeyword(Some(SafeKeyword(keyword))) == SafeKeyword(keyword)
  {
    SafeKeywordOfSafe(SafeKeyword(keyword));
  }

  /** A session without a keyword downloads as images_images.zip; one whose keyword
      has no safe character as generated_images_images.zip. */
  lemma DefaultNames(k: string)
    requires forall i :: 0 <= i < |k| ==> !Safe(k[i])
    ensures ZipFileName(None) == DefaultKeyword + ArchiveSuffix
    ensures ZipFileName(Some(k)) == FallbackStem + ArchiveSuffix
  {
    SafeKeywordOfSafe(DefaultKeyword);
    assert SafeChars(k) == [] by { NoSafeChars(k); }
  }

  lemma {:induction false} NoSafeChars(k: string)
    requires forall i :: 0 <= i < |k| ==> !Safe(k[i])
    ensures SafeChars(k) == []
  {
    if k != [] {
      NoSafeChars(k[1..]);
    }
  }
}
