/** The snippet sanitiser of web_app.py, desktop_gui.py and gui_app_new.py:
    re.sub(r'<.*?>', '', text). Without DOTALL, `.` does not match a newline, so a
    tag is a `<`, the nearest following `>`, and no newline between them. */
module TagStripper {
  import opened Text

  /** The offset of the first `>` in s that comes before any newline. */
  function CloseAt(s: string): (r: Option<nat>)
    ensures r.Some? ==> r.value < |s| && s[r.value] == '>' && '\n' !in s[..r.value]
    ensures r.None? ==> forall i :: 0 <= i < |s| && s[i] == '>' ==> '\n' in s[..i]
  {
    if s == [] || s[0] == '\n' then None
    else if s[0] == '>' then Some(0)
    else
      match CloseAt(s[1..])
      case None =>
        assert forall i :: 1 <= i < |s| ==> s[..i] == [s[0]] + s[1..][..i - 1];
        None
      case Some(k) =>
        assert s[..k + 1] == [s[0]] + s[1..][..k];
        Some(k + 1)
  }

  /** The line of s starting here holds no `>`. */
  predicate Unclosed(s: string) { CloseAt(s).None? }

  /** No `<` of s is followed by a `>` on the same line: nothing the pattern matches. */
  predicate TagFree(s: string)
  {
    forall i :: 0 <= i < |s| && s[i] == '<' ==> Unclosed(s[i + 1..])
  }

  /** re.sub(r'<.*?>', '', s): scanning left to right, each `<` that closes on its
      line is removed together with everything up to that `>`. */
  function StripTags(s: string): (r: string)
    ensures |r| <= |s|
    decreases |s|
  {
    if s == [] then []
    else if s[0] == '<' then
      match CloseAt(s[1..])
      case Some(k) => StripTags(s[k + 2..])
      case None => [s[0]] + StripTags(s[1..])
    else [s[0]] + StripTags(s[1..])
  }

  lemma {:induction false} UnclosedStaysUnclosed(t: string)
    requires Unclosed(t)
    ensures Unclosed(StripTags(t))
    decreases |t|
  {
    if t != [] && t[0] != '\n' {
      UnclosedStaysUnclosed(t[1..]);
    }
  }

  /** The output holds no tag the pattern would match. */
  lemma {:induction false} StripTagsTagFree(s: string)
    ensures TagFree(StripTags(s))
    decreases |s|
  {
    if s != [] {
      if s[0] == '<' && CloseAt(s[1..]).Some? {
        StripTagsTagFree(s[CloseAt(s[1..]).value + 2..]);
      } else {
        var rest := StripTags(s[1..]);
        StripTagsTagFree(s[1..]);
        if s[0] == '<' { UnclosedStaysUnclosed(s[1..]); }
        var r := [s[0]] + rest;
        assert r == StripTags(s);
        forall i | 0 <= i < |r| && r[i] == '<'
          ensures Unclosed(r[i + 1..])
        {
          if i > 0 { assert r[i + 1..] == rest[i..]; }
        }
      }
    }
  }

  /** Text the pattern does not match is returned unchanged. */
  lemma {:induction false} StripTagsFixesTagFree(s: string)
    requires TagFree(s)
    ensures StripTags(s) == s
    decreases |s|
  {
    if s != [] {
      assert TagFree(s[1..]) by {
        forall i | 0 <= i < |s[1..]| && s[1..][i] == '<'
          ensures Unclosed(s[1..][i + 1..])
        {
          assert s[1..][i + 1..] == s[i + 2..];
        }
      }
      StripTagsFixesTagFree(s[1..]);
    }
  }

  /** Stripping twice is stripping once. */
  lemma StripTagsIdempotent(s: string)
    ensures StripTags(StripTags(s)) == StripTags(s)
  {
    StripTagsTagFree(s);
    StripTagsFixesTagFree(StripTags(s));
  }

  /** Text without `<` is returned unchanged. */
  lemma NoAngleUnchanged(s: string)
    requires '<' !in s
    ensures StripTags(s) == s
  {
    StripTagsFixesTagFree(s);
  }

  /** Newlines are never removed: the number of lines is preserved. */
  lemma {:induction false} StripTagsKeepsNewlines(s: string)
    ensures multiset(StripTags(s))['\n'] == multiset(s)['\n']
    decreases |s|
  {
    if s != [] {
      assert s == [s[0]] + s[1..];
      if s[0] == '<' && CloseAt(s[1..]).Some? {
        var k := CloseAt(s[1..]).value;
        StripTagsKeepsNewlines(s[k + 2..]);
        assert s == s[..k + 2] + s[k + 2..];
        assert s[..k + 2] == ['<'] + s[1..][..k] + ['>'];
        assert multiset(s[1..][..k])['\n'] == 0;
      } else {
        StripTagsKeepsNewlines(s[1..]);
      }
    }
  }
}
