/** Turning a search response into the title and description columns the rest of
    the pipeline works on. Three variants exist in the source:
    - blogtitle.py and gui_app.py keep every item and index its keys directly, so an
      item without `title` or `description` aborts the extraction (KeyError);
    - NAVER_BLOG_SERACH.py does the same for titles only;
    - gui_app_new.py, web_app.py and desktop_gui.py read missing keys as "", clean
      with the regex tag stripper, and drop items whose cleaned title is empty. */
module Extraction {
  import opened Text
  import TagStripper

  /** One entry of the response's `items`; a key the entry lacks is None. */
  datatype Item = Item(title: Option<string>, description: Option<string>)

  datatype Columns = Columns(titles: seq<string>, descriptions: seq<string>)

  predicate HasKeys(it: Item) { it.title.Some? && it.description.Some? }

  /** item.get(key, ''). */
  function FieldOr(f: Option<string>): string
  {
    match f
    case Some(v) => v
    case None => ""
  }

  /** extract_blog_data of blogtitle.py and gui_app.py, which clean with
      clean_html_tags (ReplaceCleaner.CleanHtmlTags, passed as `clean`). The response
      is None when the search failed, was empty or has no `items`; the result is None
      when an item lacks one of its keys. */
  method ExtractKeepAll(response: Option<seq<Item>>, clean: string -> string) returns (r: Option<Columns>)
    ensures response.None? ==> r == Some(Columns([], []))
    ensures response.Some? ==>
      (r.None? <==> exists k :: 0 <= k < |response.value| && !HasKeys(response.value[k]))
    ensures response.Some? && r.Some? ==>
      |r.value.titles| == |response.value| && |r.value.descriptions| == |response.value|
    ensures response.Some? && r.Some? ==>
      forall k :: 0 <= k < |response.value| ==>
        r.value.titles[k] == clean(response.value[k].title.value) &&
        r.value.descriptions[k] == clean(response.value[k].description.value)
  {
    if response.None? {
      return Some(Columns([], []));
    }
    var items := response.value;
    var titles: seq<string> := [];
    var descriptions: seq<string> := [];
    var i := 0;
    while i < |items|
      invariant 0 <= i <= |items|
      invariant forall k :: 0 <= k < i ==> HasKeys(items[k])
      invariant |titles| == i && |descriptions| == i
      invariant forall k :: 0 <= k < i ==>
        titles[k] == clean(items[k].title.value) && descriptions[k] == clean(items[k].description.value)
    {
      if !HasKeys(items[i]) {
        return None;
      }
      titles := titles + [clean(items[i].title.value)];
      descriptions := descriptions + [clean(items[i].description.value)];
      i := i + 1;
    }
    return Some(Columns(titles, descriptions));
  }

  /** extract_blog_titles of NAVER_BLOG_SERACH.py, whose clean_html_tags is the same
      replacement chain (passed as `clean`): one cleaned title per item; None when an
      item has no `title`. */
  method ExtractTitles(response: Option<seq<Item>>, clean: string -> string) returns (r: Option<seq<string>>)
    ensures response.None? ==> r == Some([])
    ensures response.Some? ==>
      (r.None? <==> exists k :: 0 <= k < |response.value| && response.value[k].title.None?)
    ensures response.Some? && r.Some? ==>
      |r.value| == |response.value| &&
      forall k :: 0 <= k < |response.value| ==> r.value[k] == clean(response.value[k].title.value)
  {
    if response.None? {
      return Some([]);
    }
    var items := response.value;
    var titles: seq<string> := [];
    var i := 0;
    while i < |items|
      invariant 0 <= i <= |items|
      invariant forall k :: 0 <= k < i ==> items[k].title.Some?
      invariant |titles| == i
      invariant forall k :: 0 <= k < i ==> titles[k] == clean(items[k].title.value)
    {
      if items[i].title.None? {
        return None;
      }
      titles := titles + [clean(items[i].title.value)];
      i := i + 1;
    }
    return Some(titles);
  }

  /** The cleaned (title, description) of one item under the lenient reading. */
  function Cleaned(it: Item): (string, string)
  {
    (TagStripper.StripTags(FieldOr(it.title)), TagStripper.StripTags(FieldOr(it.description)))
  }

  /** The cleaned pair of every item, in response order. */
  function CleanedAll(items: seq<Item>): (r: seq<(string, string)>)
    ensures |r| == |items|
    ensures forall k :: 0 <= k < |items| ==> r[k] == Cleaned(items[k])
  {
    seq(|items|, k requires 0 <= k < |items| => Cleaned(items[k]))
  }

  /** The pairs whose title is non-empty, in order. */
  function Titled(pairs: seq<(string, string)>): (r: seq<(string, string)>)
    ensures |r| <= |pairs|
  {
    if pairs == [] then []
    else
      var last := pairs[|pairs| - 1];
      Titled(pairs[..|pairs| - 1]) + (if last.0 != [] then [last] else [])
  }

  /** The pairs the lenient extraction keeps, in response order. */
  function Kept(items: seq<Item>): seq<(string, string)>
  {
    Titled(CleanedAll(items))
  }

  /** The number of pairs whose title is non-empty. */
  function CountTitled(pairs: seq<(string, string)>): nat
  {
    if pairs == [] then 0
    else CountTitled(pairs[..|pairs| - 1]) + (if pairs[|pairs| - 1].0 != [] then 1 else 0)
  }

  /** A pair is kept exactly when it is one of the pairs and its title is non-empty. */
  lemma {:induction false} TitledMembership(pairs: seq<(string, string)>, p: (string, string))
    ensures p in Titled(pairs) <==> p.0 != [] && p in pairs
  {
    if pairs != [] {
      TitledMembership(pairs[..|pairs| - 1], p);
      assert pairs == pairs[..|pairs| - 1] + [pairs[|pairs| - 1]];
    }
  }

  /** A pair is kept exactly when some item cleans to it with a non-empty title. */
  lemma KeptMembership(items: seq<Item>, p: (string, string))
    ensures p in Kept(items) <==> p.0 != [] && exists j :: 0 <= j < |items| && Cleaned(items[j]) == p
  {
    var pairs := CleanedAll(items);
    TitledMembership(pairs, p);
    if p in pairs {
      var j :| 0 <= j < |pairs| && pairs[j] == p;
      assert Cleaned(items[j]) == p;
    }
  }

  /** Exactly the titled pairs are kept, one each. */
  lemma {:induction false} KeptCount(pairs: seq<(string, string)>)
    ensures |Titled(pairs)| == CountTitled(pairs)
  {
    if pairs != [] { KeptCount(pairs[..|pairs| - 1]); }
  }

  /** Every kept pair has a non-empty title. */
  lemma {:induction false} KeptTitled(pairs: seq<(string, string)>)
    ensures forall k :: 0 <= k < |Titled(pairs)| ==> Titled(pairs)[k].0 != []
  {
    if pairs != [] { KeptTitled(pairs[..|pairs| - 1]); }
  }

  /** When every item has a title, nothing is dropped. */
  lemma {:induction false} KeptAllTitled(pairs: seq<(string, string)>)
    requires forall p :: p in pairs ==> p.0 != []
    ensures Titled(pairs) == pairs
  {
    if pairs != [] {
      KeptAllTitled(pairs[..|pairs| - 1]);
      assert pairs[..|pairs| - 1] + [pairs[|pairs| - 1]] == pairs;
    }
  }

  /** extract_blog_data of gui_app_new.py, web_app.py and desktop_gui.py. */
  method ExtractFiltering(response: Option<seq<Item>>) returns (c: Columns)
    ensures response.None? ==> c == Columns([], [])
    ensures |c.titles| == |c.descriptions|
    ensures forall k :: 0 <= k < |c.titles| ==> c.titles[k] != []
    ensures response.Some? ==> Zip(c.titles, c.descriptions) == Kept(response.value)
  {
    if response.None? {
      return Columns([], []);
    }
    var items := response.value;
    var titles: seq<string> := [];
    var descriptions: seq<string> := [];
    var i := 0;
    ghost var pairs := CleanedAll(items);
    while i < |items|
      invariant 0 <= i <= |items|
      invariant |titles| == |descriptions|
      invariant Zip(titles, descriptions) == Titled(pairs[..i])
    {
      var title := TagStripper.StripTags(FieldOr(items[i].title));
      var description := TagStripper.StripTags(FieldOr(items[i].description));
      assert pairs[i] == (title, description);
      assert pairs[..i + 1][..i] == pairs[..i];
      ZipSnoc(titles, descriptions, title, description);
      if title != [] {
        titles := titles + [title];
        descriptions := descriptions + [description];
      }
      i := i + 1;
    }
    assert pairs[..i] == pairs;
    KeptTitled(pairs);
    forall k | 0 <= k < |titles| ensures titles[k] != [] {
      assert Titled(pairs)[k] == (titles[k], descriptions[k]);
    }
    return Columns(titles, descriptions);
  }

  function Zip(a: seq<string>, b: seq<string>): (r: seq<(string, string)>)
    requires |a| == |b|
    ensures |r| == |a|
    ensures forall k :: 0 <= k < |a| ==> r[k] == (a[k], b[k])
  {
    seq(|a|, k requires 0 <= k < |a| => (a[k], b[k]))
  }

  lemma ZipSnoc(a: seq<string>, b: seq<string>, x: string, y: string)
    requires |a| == |b|
    ensures Zip(a + [x], b + [y]) == Zip(a, b) + [(x, y)]
  {
  }
}
