/** Reading the three credentials (Naver client id, Naver client secret, OpenAI key)
    from `.env` lines and, in web_app.py, from the process environment. A file is
    given as its lines; None stands for a file that does not exist. */
module EnvConfig {
  import opened Text

  const NaverClientId := "NAVER_CLIENT_ID"
  const NaverClientSecret := "NAVER_CLIENT_SECRET_KEY"
  const OpenAiApiKey := "OPENAI_API_KEY"

  /** (client_id, client_secret, openai_api_key); a value that was never found is None. */
  datatype Credentials = Credentials(clientId: Option<string>, clientSecret: Option<string>, openAiKey: Option<string>)

  const NoCredentials := Credentials(None, None, None)

  /** Python truthiness of an optional string: present and non-empty. */
  predicate Truthy(v: Option<string>) { v.Some? && v.value != [] }

  /** One `.env` line: stripped, skipped when blank, a comment or without `=`, else
      split at the first `=` with key and value stripped. */
  function ParseLine(line: string): (r: Option<(string, string)>)
    ensures r.Some? <==> var l := Strip(line); l != [] && l[0] != '#' && '=' in l
    ensures r.Some? ==> '=' !in r.value.0
  {
    var l := Strip(line);
    if l == [] || l[0] == '#' || '=' !in l then None
    else
      var i := FirstIndex(l, '=');
      Some((Strip(l[..i]), Strip(l[i + 1..])))
  }

  /** The position of the first occurrence of c. */
  function FirstIndex(s: string, c: char): (i: nat)
    requires c in s
    ensures i < |s| && s[i] == c && c !in s[..i]
  {
    if s[0] == c then 0
    else
      var j := FirstIndex(s[1..], c);
      assert s[..j + 1] == [s[0]] + s[1..][..j];
      j + 1
  }

  /** Keys and values come out stripped. */
  lemma ParseLineStripped(line: string)
    requires ParseLine(line).Some?
    ensures var kv := ParseLine(line).value;
      NoLeadingSpace(kv.0) && NoTrailingSpace(kv.0) && NoLeadingSpace(kv.1) && NoTrailingSpace(kv.1)
  {
  }

  lemma StripKeepsOut(s: string, c: char)
    requires c !in s
    ensures c !in Strip(s)
  {
    var i := StripSlice(s);
    assert forall x :: x in Strip(s) ==> x in s;
  }

  lemma {:induction false} FirstIndexAt(s: string, c: char, k: nat)
    requires k < |s| && s[k] == c && c !in s[..k]
    ensures FirstIndex(s, c) == k
  {
    if k > 0 {
      assert s[0] in s[..k];
      assert s[1..][..k - 1] == s[1..k];
      assert forall x :: x in s[1..k] ==> x in s[..k];
      FirstIndexAt(s[1..], c, k - 1);
    }
  }

  /** A line written as `key=value` reads back as (key, value), for a stripped key
      without `=` that does not start a comment and a stripped value. */
  lemma ParseLineFormatted(key: string, value: string)
    requires '=' !in key && NoLeadingSpace(key) && NoTrailingSpace(key) && (key == [] || key[0] != '#')
    requires NoLeadingSpace(value) && NoTrailingSpace(value)
    ensures ParseLine(key + "=" + value) == Some((key, value))
  {
    var line := key + "=" + value;
    assert line[|key|] == '=';
    assert line[0] == (if key == [] then '=' else key[0]);
    assert line[|line| - 1] == (if value == [] then '=' else value[|value| - 1]);
    assert Strip(line) == line;
    assert line[..|key|] == key;
    FirstIndexAt(line, '=', |key|);
    assert line[|key| + 1..] == value;
  }

  /** The parsed form of every line, in file order. */
  function Entries(lines: seq<string>): (r: seq<Option<(string, string)>>)
    ensures |r| == |lines|
    ensures forall i :: 0 <= i < |lines| ==> r[i] == ParseLine(lines[i])
  {
    seq(|lines|, i requires 0 <= i < |lines| => ParseLine(lines[i]))
  }

  /** The dictionary built from parsed lines: a later key overwrites an earlier one. */
  function Fill(entries: seq<Option<(string, string)>>): map<string, string>
  {
    if entries == [] then map[]
    else
      var m := Fill(entries[..|entries| - 1]);
      match entries[|entries| - 1]
      case None => m
      case Some(kv) => m[kv.0 := kv.1]
  }

  /** The dictionary the `.env` readers build from a file's lines. */
  function EnvMap(lines: seq<string>): map<string, string>
  {
    Fill(Entries(lines))
  }

  /** The dictionary fill of every `.env` reader: one pass over the lines. */
  method ReadEnvFile(lines: seq<string>) returns (vars: map<string, string>)
    ensures vars == EnvMap(lines)
  {
    ghost var entries := Entries(lines);
    vars := map[];
    var i := 0;
    while i < |lines|
      invariant 0 <= i <= |lines|
      invariant vars == Fill(entries[..i])
    {
      assert entries[..i + 1][..i] == entries[..i];
      var parsed := ParseLine(lines[i]);
      if parsed.Some? {
        vars := vars[parsed.value.0 := parsed.value.1];
      }
      i := i + 1;
    }
    assert entries[..i] == entries;
  }

  /** An entry that defines key. */
  predicate Defines(e: Option<(string, string)>, key: string)
  {
    e.Some? && e.value.0 == key
  }

  /** A key is defined exactly when some line defines it. */
  lemma {:induction false} FillKeys(entries: seq<Option<(string, string)>>, key: string)
    ensures key in Fill(entries) <==> exists i :: 0 <= i < |entries| && Defines(entries[i], key)
  {
    if entries != [] {
      var n := |entries|;
      var prefix := entries[..n - 1];
      FillKeys(prefix, key);
      if exists i :: 0 <= i < n && Defines(entries[i], key) {
        var i :| 0 <= i < n && Defines(entries[i], key);
        if i < n - 1 { assert Defines(prefix[i], key); }
      }
      if exists i :: 0 <= i < n - 1 && Defines(prefix[i], key) {
        var i :| 0 <= i < n - 1 && Defines(prefix[i], key);
        assert Defines(entries[i], key);
      }
    }
  }

  /** The last line that defines a key supplies its value. */
  lemma {:induction false} FillLastWins(entries: seq<Option<(string, string)>>, i: nat, key: string, value: string)
    requires i < |entries| && entries[i] == Some((key, value))
    requires forall j :: i < j < |entries| ==> !Defines(entries[j], key)
    ensures key in Fill(entries) && Fill(entries)[key] == value
  {
    var n := |entries|;
    if i < n - 1 {
      FillLastWins(entries[..n - 1], i, key, value);
      assert !Defines(entries[n - 1], key);
    }
  }

  /** For a file: a key is set exactly when some line defines it, and the last such
      line gives its value. */
  lemma EnvMapLastWins(lines: seq<string>, i: nat, key: string, value: string)
    requires i < |lines| && ParseLine(lines[i]) == Some((key, value))
    requires forall j :: i < j < |lines| ==> !Defines(ParseLine(lines[j]), key)
    ensures key in EnvMap(lines) && EnvMap(lines)[key] == value
  {
    FillLastWins(Entries(lines), i, key, value);
  }

  function Get(m: map<string, string>, key: string): Option<string>
  {
    if key in m then Some(m[key]) else None
  }

  function Lookup3(m: map<string, string>): Credentials
  {
    Credentials(Get(m, NaverClientId), Get(m, NaverClientSecret), Get(m, OpenAiApiKey))
  }

  /** load_env_variables of blogtitle.py: all three credentials or none. */
  method LoadStrict(file: Option<seq<string>>) returns (c: Credentials)
    ensures file.None? ==> c == NoCredentials
    ensures c == NoCredentials || (Truthy(c.clientId) && Truthy(c.clientSecret) && Truthy(c.openAiKey))
    ensures file.Some? ==> var f := Lookup3(EnvMap(file.value));
      c == (if Truthy(f.clientId) && Truthy(f.clientSecret) && Truthy(f.openAiKey) then f else NoCredentials)
  {
    if file.None? {
      return NoCredentials;
    }
    var vars := ReadEnvFile(file.value);
    var found := Lookup3(vars);
    if !Truthy(found.clientId) || !Truthy(found.clientSecret) {
      return NoCredentials;
    }
    if !Truthy(found.openAiKey) {
      return NoCredentials;
    }
    return found;
  }

  /** load_env_variables of gui_app.py and gui_app_new.py: whatever keys the file has. */
  method LoadLenient(file: Option<seq<string>>) returns (c: Credentials)
    ensures file.None? ==> c == NoCredentials
    ensures file.Some? ==> c == Lookup3(EnvMap(file.value))
  {
    if file.None? {
      return NoCredentials;
    }
    var vars := ReadEnvFile(file.value);
    return Lookup3(vars);
  }

  /** load_env_variables of NAVER_BLOG_SERACH.py: the Naver pair is required, the
      OpenAI key is returned even when absent or empty. */
  method LoadNaverRequired(file: Option<seq<string>>) returns (c: Credentials)
    ensures file.None? ==> c == NoCredentials
    ensures c == NoCredentials || (Truthy(c.clientId) && Truthy(c.clientSecret))
    ensures file.Some? ==> var f := Lookup3(EnvMap(file.value));
      c == (if Truthy(f.clientId) && Truthy(f.clientSecret) then f else NoCredentials)
  {
    if file.None? {
      return NoCredentials;
    }
    var vars := ReadEnvFile(file.value);
    var found := Lookup3(vars);
    if !Truthy(found.clientId) || !Truthy(found.clientSecret) {
      return NoCredentials;
    }
    return found;
  }

  /** The values the file lines give for one key, in file order. */
  function FileValues(entries: seq<Option<(string, string)>>, key: string): seq<string>
  {
    if entries == [] then []
    else
      var rest := FileValues(entries[..|entries| - 1], key);
      match entries[|entries| - 1]
      case Some(kv) => if kv.0 == key then rest + [kv.1] else rest
      case None => rest
  }

  /** The first non-empty string of a sequence, if any. */
  function FirstNonEmpty(vs: seq<string>): (r: Option<string>)
    ensures r.Some? ==> r.value != [] && r.value in vs
    ensures r.None? ==> forall i :: 0 <= i < |vs| ==> vs[i] == []
  {
    if vs == [] then None else if vs[0] != [] then Some(vs[0]) else FirstNonEmpty(vs[1..])
  }

  /** Where web_app.py's value for one key comes from: a non-empty environment value;
      otherwise the first non-empty value in the file; otherwise an empty value from
      the file if the key occurs there; otherwise the environment's own value. */
  function WebValue(env: Option<string>, values: seq<string>): Option<string>
  {
    if Truthy(env) then env
    else if FirstNonEmpty(values).Some? then FirstNonEmpty(values)
    else if values != [] then Some("")
    else env
  }

  lemma {:induction false} FirstNonEmptySnoc(vs: seq<string>, v: string)
    ensures FirstNonEmpty(vs + [v]) == if FirstNonEmpty(vs).Some? then FirstNonEmpty(vs) else if v != [] then Some(v) else None
  {
    if vs != [] {
      assert (vs + [v])[1..] == vs[1..] + [v];
      FirstNonEmptySnoc(vs[1..], v);
    }
  }

  /** One step of the web loop for one key: assign only while the current value is falsy. */
  lemma WebValueSnoc(env: Option<string>, values: seq<string>, v: string)
    ensures WebValue(env, values + [v]) == if Truthy(WebValue(env, values)) then WebValue(env, values) else Some(v)
  {
    FirstNonEmptySnoc(values, v);
  }

  /** The web loop's treatment of one line for one key: the line's value is taken
      only while the current value is missing or empty. */
  function Assign(cur: Option<string>, e: Option<(string, string)>, key: string): Option<string>
  {
    if Defines(e, key) && !Truthy(cur) then Some(e.value.1) else cur
  }

  lemma WebValueStep(env: Option<string>, es: seq<Option<(string, string)>>, i: nat, key: string)
    requires i < |es|
    ensures Assign(WebValue(env, FileValues(es[..i], key)), es[i], key) == WebValue(env, FileValues(es[..i + 1], key))
  {
    assert es[..i + 1][..i] == es[..i];
    if Defines(es[i], key) {
      WebValueSnoc(env, FileValues(es[..i], key), es[i].value.1);
    }
  }

  function EnvGet(env: map<string, string>, key: string): Option<string>
  {
    if key in env then Some(env[key]) else None
  }

  /** load_env_variables of web_app.py (BlogWebApp): the process environment first; the
      file is read only when one of the three is missing or empty, and a file line sets
      a key only while its current value is missing or empty. */
  method LoadWeb(env: map<string, string>, file: Option<seq<string>>) returns (c: Credentials)
    ensures var e := Credentials(EnvGet(env, NaverClientId), EnvGet(env, NaverClientSecret), EnvGet(env, OpenAiApiKey));
      if (Truthy(e.clientId) && Truthy(e.clientSecret) && Truthy(e.openAiKey)) || file.None? then c == e
      else c == Credentials(
        WebValue(e.clientId, FileValues(Entries(file.value), NaverClientId)),
        WebValue(e.clientSecret, FileValues(Entries(file.value), NaverClientSecret)),
        WebValue(e.openAiKey, FileValues(Entries(file.value), OpenAiApiKey)))
  {
    var id, secret, key := EnvGet(env, NaverClientId), EnvGet(env, NaverClientSecret), EnvGet(env, OpenAiApiKey);
    if !(Truthy(id) && Truthy(secret) && Truthy(key)) && file.Some? {
      var lines := file.value;
      ghost var es := Entries(lines);
      var i := 0;
      while i < |lines|
        invariant 0 <= i <= |lines|
        invariant id == WebValue(EnvGet(env, NaverClientId), FileValues(es[..i], NaverClientId))
        invariant secret == WebValue(EnvGet(env, NaverClientSecret), FileValues(es[..i], NaverClientSecret))
        invariant key == WebValue(EnvGet(env, OpenAiApiKey), FileValues(es[..i], OpenAiApiKey))
      {
        WebValueStep(EnvGet(env, NaverClientId), es, i, NaverClientId);
        WebValueStep(EnvGet(env, NaverClientSecret), es, i, NaverClientSecret);
        WebValueStep(EnvGet(env, OpenAiApiKey), es, i, OpenAiApiKey);
        var parsed := ParseLine(lines[i]);
        assert parsed == es[i];
        if parsed.Some? {
          var k := parsed.value.0;
          var v := parsed.value.1;
          if k == NaverClientId && !Truthy(id) {
            id := Some(v);
          } else if k == NaverClientSecret && !Truthy(secret) {
            secret := Some(v);
          } else if k == OpenAiApiKey && !Truthy(key) {
            key := Some(v);
          }
        }
        i := i + 1;
      }
      assert es[..i] == es;
    }
    c := Credentials(id, secret, key);
  }

  /** A non-empty environment value is never replaced by the file. */
  lemma EnvironmentWins(env: Option<string>, values: seq<string>)
    requires Truthy(env)
    ensures WebValue(env, values) == env
  {
  }

  /** Unlike the dictionary readers, the web reader keeps the first non-empty value. */
  lemma {:induction false} FirstNonEmptyWins(values: seq<string>, i: nat)
    requires i < |values| && values[i] != [] && forall j :: 0 <= j < i ==> values[j] == []
    ensures FirstNonEmpty(values) == Some(values[i])
  {
    if i > 0 {
      FirstNonEmptyWins(values[1..], i - 1);
    }
  }
}
