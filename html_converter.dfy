/** convert_to_html of desktop_gui.py: the article text becomes a list of HTML chunks,
    line by line, and the chunks are joined with newlines between a fixed head (the
    page header and style sheet) and a fixed footer (the credit and the copy script).
    The head and footer texts are parameters here. */
module HtmlConverter {
  import opened Text

  /** What a stripped line is, in the order the converter tests it, with the text it
      contributes. */
  datatype LineKind =
    | Blank
    | Title(text: string)
    | Heading2(text: string)
    | Heading3(text: string)
    | Item(text: string)
    | Plain(text: string)

  /** The state between lines: the chunks emitted so far and the lines of the open
      paragraph (the source's in_paragraph flag is exactly "this list is non-empty"). */
  datatype State = State(chunks: seq<string>, paragraph: seq<string>)

  /** Which test decides that a list item opens a new `<ul>`: the source's (the last
      chunk does not start with `<ul>`), or the evidently intended one (the last chunk
      is neither `<ul>` nor an item of the open list). */
  datatype ListRule = AsWritten | Corrected

  const TitleLabel := "제목:"

  /** An element `<tag>text</tag>`. */
  function Element(tag: string, text: string): (r: string)
    requires |tag| >= 1
    ensures |r| == 2 * |tag| + |text| + 5 && r[0] == '<' && r[1] == tag[0]
    ensures r[..|tag| + 2] == "<" + tag + ">"
  {
    "<" + tag + ">" + text + "</" + tag + ">"
  }

  /** ''.join(parts). */
  function Concat(parts: seq<string>): string
  {
    if parts == [] then [] else Concat(parts[..|parts| - 1]) + parts[|parts| - 1]
  }

  /** The chunks after closing the open paragraph, if any, as one `<p>`. */
  function Flush(chunks: seq<string>, paragraph: seq<string>): (r: seq<string>)
    ensures paragraph == [] ==> r == chunks
    ensures paragraph != [] ==> r == chunks + [Element("p", Concat(paragraph))]
  {
    if paragraph != [] then chunks + [Element("p", Concat(paragraph))] else chunks
  }

  /** The index of the first `**` in s at or after k, or -1. */
  function PairFrom(s: string, k: nat): (r: int)
    ensures r == -1 || k <= r <= |s| - 2
    ensures r >= 0 ==> s[r] == '*' && s[r + 1] == '*'
    decreases |s| - k
  {
    if k + 2 > |s| then -1
    else if s[k] == '*' && s[k + 1] == '*' then k
    else PairFrom(s, k + 1)
  }

  /** re.sub(r'\*\*(.*?)\*\*', r'<strong>\1</strong>', line) on s[i..]: from left to
      right, each `**` with a later `**` wraps the shortest text between them. */
  function BoldFrom(s: string, i: nat): string
    requires i <= |s|
    decreases |s| - i
  {
    if i + 2 > |s| then s[i..]
    else if s[i] == '*' && s[i + 1] == '*' then
      var j := PairFrom(s, i + 2);
      if j < 0 then s[i..] else Element("strong", s[i + 2..j]) + BoldFrom(s, j + 2)
    else [s[i]] + BoldFrom(s, i + 1)
  }

  function Bold(line: string): string
  {
    BoldFrom(line, 0)
  }

  predicate IsItem(line: string) { StartsWith(line, "- ") || StartsWith(line, "* ") }

  /** The tests of the loop body, in order, on a stripped line. */
  function Classify(line: string): LineKind
  {
    if line == [] then Blank
    else if StartsWith(line, TitleLabel) then Title(Strip(ReplaceAll(line, TitleLabel, "")))
    else if StartsWith(line, "# ") then Heading2(Strip(line[2..]))
    else if StartsWith(line, "## ") then Heading3(Strip(line[3..]))
    else if IsItem(line) then Item(Strip(line[2..]))
    else Plain(Bold(line))
  }

  predicate IsItemChunk(s: string) { StartsWith(s, "<li>") }

  function OpensList(rule: ListRule, last: string): bool
  {
    match rule
    case AsWritten => !StartsWith(last, "<ul>")
    case Corrected => !StartsWith(last, "<ul>") && !IsItemChunk(last)
  }

  /** One line of the loop body. */
  function Step(st: State, kind: LineKind, rule: ListRule): (r: State)
    requires st.chunks != []
    ensures st.chunks <= r.chunks
  {
    var c := st.chunks;
    var p := st.paragraph;
    match kind
    case Blank => State(Flush(c, p), [])
    case Title(t) => State(c + [Element("h1", t)], p)
    case Heading2(t) => State(Flush(c, p) + [Element("h2", t)], [])
    case Heading3(t) => State(Flush(c, p) + [Element("h3", t)], [])
    case Item(t) =>
      var f := Flush(c, p);
      var listed := if OpensList(rule, f[|f| - 1]) then f + ["<ul>"] else f;
      State(listed + [Element("li", t)], [])
    case Plain(t) =>
      var closed := if IsItemChunk(c[|c| - 1]) then c + ["</ul>"] else c;
      State(closed, p + [t + " "])
  }

  /** The kind of each line once stripped. */
  function Kinds(lines: seq<string>): (r: seq<LineKind>)
    ensures |r| == |lines|
  {
    if lines == [] then [] else Kinds(lines[..|lines| - 1]) + [Classify(Strip(lines[|lines| - 1]))]
  }

  /** The loop over the lines. */
  function Run(st: State, kinds: seq<LineKind>, rule: ListRule): (r: State)
    requires st.chunks != []
    ensures st.chunks <= r.chunks
  {
    if kinds == [] then st
    else Step(Run(st, kinds[..|kinds| - 1], rule), kinds[|kinds| - 1], rule)
  }

  /** After the loop: the open paragraph is closed, then an open list. */
  function Finish(st: State): (r: seq<string>)
    requires st.chunks != []
    ensures st.chunks <= r
  {
    var f := Flush(st.chunks, st.paragraph);
    if IsItemChunk(f[|f| - 1]) then f + ["</ul>"] else f
  }

  function Body(content: string, head: string, rule: ListRule): (r: seq<string>)
    ensures r != [] && r[0] == head
  {
    var r := Finish(Run(State([head], []), Kinds(Split(Strip(content), '\n')), rule));
    assert [head] <= r;
    r
  }

  /** The page convert_to_html returns (rule AsWritten), or the intended one. */
  function Converted(content: string, head: string, footer: string, rule: ListRule): string
  {
    Join("\n", Body(content, head, rule) + [footer])
  }

  /** convert_to_html. */
  method ConvertToHtml(content: string, head: string, footer: string) returns (html: string)
    ensures html == Converted(content, head, footer, AsWritten)
  {
    var lines := Split(Strip(content), '\n');
    var htmlContent, inParagraph, currentParagraph := ConvertLines(lines, head);
    ghost var st := Run(State([head], []), Kinds(lines), AsWritten);
    if inParagraph && currentParagraph != [] {
      htmlContent := htmlContent + [Element("p", Concat(currentParagraph))];
    }
    assert htmlContent == Flush(st.chunks, st.paragraph);
    if htmlContent != [] && StartsWith(htmlContent[|htmlContent| - 1], "<li>") {
      htmlContent := htmlContent + ["</ul>"];
    }
    assert htmlContent == Body(content, head, AsWritten);
    html := Join("\n", htmlContent + [footer]);
  }

  /** The loop of convert_to_html over the lines. */
  method ConvertLines(lines: seq<string>, head: string)
    returns (htmlContent: seq<string>, inParagraph: bool, currentParagraph: seq<string>)
    ensures State(htmlContent, currentParagraph) == Run(State([head], []), Kinds(lines), AsWritten)
    ensures inParagraph <==> currentParagraph != []
  {
    htmlContent, inParagraph, currentParagraph := [head], false, [];
    var i := 0;
    while i < |lines|
      invariant 0 <= i <= |lines|
      invariant State(htmlContent, currentParagraph) == Run(State([head], []), Kinds(lines[..i]), AsWritten)
      invariant inParagraph <==> currentParagraph != []
    {
      ghost var kinds := Kinds(lines[..i]);
      ghost var kind := Classify(Strip(lines[i]));
      assert lines[..i + 1][..i] == lines[..i];
      assert Kinds(lines[..i + 1]) == kinds + [kind];
      assert (kinds + [kind])[..i] == kinds;
      htmlContent, inParagraph, currentParagraph := ConvertLine(htmlContent, inParagraph, currentParagraph, Strip(lines[i]));
      i := i + 1;
    }
    assert lines[..i] == lines;
  }

  /** The loop body of convert_to_html on one stripped line. */
  method ConvertLine(htmlContent: seq<string>, inParagraph: bool, currentParagraph: seq<string>, line: string)
    returns (chunks: seq<string>, inParagraph': bool, paragraph: seq<string>)
    requires htmlContent != [] && (inParagraph <==> currentParagraph != [])
    ensures State(chunks, paragraph) == Step(State(htmlContent, currentParagraph), Classify(line), AsWritten)
    ensures inParagraph' <==> paragraph != []
  {
    chunks, inParagraph', paragraph := htmlContent, inParagraph, currentParagraph;
    if line == [] {
      if inParagraph' && paragraph != [] {
        chunks := chunks + [Element("p", Concat(paragraph))];
        paragraph := [];
        inParagraph' := false;
      }
      return;
    }
    if StartsWith(line, TitleLabel) {
      var title := Strip(ReplaceAll(line, TitleLabel, ""));
      assert Classify(line) == Title(title);
      chunks := chunks + [Element("h1", title)];
    } else if StartsWith(line, "# ") {
      if inParagraph' && paragraph != [] {
        chunks := chunks + [Element("p", Concat(paragraph))];
        paragraph := [];
        inParagraph' := false;
      }
      assert Classify(line) == Heading2(Strip(line[2..]));
      chunks := chunks + [Element("h2", Strip(line[2..]))];
    } else if StartsWith(line, "## ") {
      if inParagraph' && paragraph != [] {
        chunks := chunks + [Element("p", Concat(paragraph))];
        paragraph := [];
        inParagraph' := false;
      }
      assert Classify(line) == Heading3(Strip(line[3..]));
      chunks := chunks + [Element("h3", Strip(line[3..]))];
    } else if StartsWith(line, "- ") || StartsWith(line, "* ") {
      if inParagraph' && paragraph != [] {
        chunks := chunks + [Element("p", Concat(paragraph))];
        paragraph := [];
        inParagraph' := false;
      }
      if !StartsWith(chunks[|chunks| - 1], "<ul>") {
        chunks := chunks + ["<ul>"];
      }
      assert Classify(line) == Item(Strip(line[2..]));
      chunks := chunks + [Element("li", Strip(line[2..]))];
    } else {
      assert Classify(line) == Plain(Bold(line));
      if StartsWith(chunks[|chunks| - 1], "<li>") {
        chunks := chunks + ["</ul>"];
      }
      if !inParagraph' {
        inParagraph' := true;
        paragraph := [];
      }
      paragraph := paragraph + [Bold(line) + " "];
    }
  }

  // ---------------------------------------------------------------- page frame

  lemma {:induction false} JoinSnoc(sep: string, parts: seq<string>, last: string)
    requires parts != []
    ensures Join(sep, parts + [last]) == Join(sep, parts) + sep + last
  {
    if |parts| > 1 {
      assert (parts + [last])[1..] == parts[1..] + [last];
      JoinSnoc(sep, parts[1..], last);
    }
  }

  /** The page starts with the head and a newline and ends with a newline and the footer. */
  predicate FramedBy(html: string, head: string, footer: string)
  {
    StartsWith(html, head + "\n") &&
    |html| >= |head| + 1 + |footer| && html[|html| - |footer| - 1..] == "\n" + footer
  }

  /** Chunks that start with the head, joined with the footer after them, are framed
      by the head and the footer. */
  lemma Framed(chunks: seq<string>, head: string, footer: string)
    requires chunks != [] && chunks[0] == head
    ensures FramedBy(Join("\n", chunks + [footer]), head, footer)
  {
    JoinSnoc("\n", chunks, footer);
    var inner := Join("\n", chunks);
    if |chunks| == 1 {
      assert inner == head;
    } else {
      assert inner == head + "\n" + Join("\n", chunks[1..]);
    }
    assert StartsWith(inner, head);
    var html := inner + "\n" + footer;
    assert html[|html| - |footer| - 1..] == "\n" + footer;
    assert html[..|head| + 1] == head + "\n";
  }

  /** Every page the converter returns is framed by the head and the footer. */
  lemma PageFrame(content: string, head: string, footer: string, rule: ListRule)
    ensures FramedBy(Converted(content, head, footer, rule), head, footer)
  {
    var body := Body(content, head, rule);
    assert Converted(content, head, footer, rule) == Join("\n", body + [footer]);
    Framed(body, head, footer);
  }

  // ---------------------------------------------------------------- paragraphs and headings

  /** `# x` is a second-level heading and `## x` a third-level one, of the stripped x. */
  lemma ClassifyHeadings(x: string)
    ensures Classify("# " + x) == Heading2(Strip(x))
    ensures Classify("## " + x) == Heading3(Strip(x))
  {
    assert ("# " + x)[2..] == x;
    assert ("## " + x)[3..] == x;
    assert !StartsWith("# " + x, TitleLabel) by { assert ("# " + x)[0] != TitleLabel[0]; }
    assert !StartsWith("## " + x, TitleLabel) by { assert ("## " + x)[0] != TitleLabel[0]; }
    assert !StartsWith("## " + x, "# ") by { assert ("## " + x)[1] != ' '; }
  }

  /** A `제목:` line is a title of the text after the label. */
  lemma ClassifyTitle(t: string)
    requires !Contains(t, TitleLabel) && NoLeadingSpace(t) && NoTrailingSpace(t)
    ensures Classify(TitleLabel + " " + t) == Title(t)
  {
    var line := TitleLabel + " " + t;
    assert line[..|TitleLabel|] == TitleLabel;
    assert line[|TitleLabel|..] == " " + t;
    assert !Contains(" " + t, TitleLabel) by {
      assert !StartsWith(" " + t, TitleLabel) by { assert (" " + t)[0] != TitleLabel[0]; }
      assert (" " + t)[1..] == t;
    }
    ReplaceAbsent(" " + t, TitleLabel, "");
    assert ReplaceAll(line, TitleLabel, "") == " " + t;
    assert Strip(" " + t) == t by { assert (" " + t)[1..] == t; }
  }

  /** A blank line, a heading or a list item closes the open paragraph as one `<p>`
      holding its lines, in order; a title leaves it open, and a plain line adds to it. */
  lemma ParagraphBreaks(st: State, kind: LineKind, rule: ListRule)
    requires st.chunks != []
    ensures var r := Step(st, kind, rule);
      (kind.Blank? || kind.Heading2? || kind.Heading3? || kind.Item? ==>
        r.paragraph == [] && Flush(st.chunks, st.paragraph) <= r.chunks) &&
      (kind.Title? ==> r.paragraph == st.paragraph) &&
      (kind.Plain? ==> r.paragraph == st.paragraph + [kind.text + " "])
  {
  }

  predicate SpaceEnded(p: seq<string>)
  {
    forall k :: 0 <= k < |p| ==> p[k] != [] && p[k][|p[k]| - 1] == ' '
  }

  /** Every paragraph entry is a line followed by one space. */
  lemma {:induction false} ParagraphEntries(head: string, kinds: seq<LineKind>, rule: ListRule)
    ensures SpaceEnded(Run(State([head], []), kinds, rule).paragraph)
  {
    if kinds != [] {
      var n := |kinds| - 1;
      ParagraphEntries(head, kinds[..n], rule);
      var st := Run(State([head], []), kinds[..n], rule);
      var p := Step(st, kinds[n], rule).paragraph;
      if kinds[n].Plain? {
        var t := kinds[n].text;
        assert p == st.paragraph + [t + " "];
        assert (t + " ")[|t + " "| - 1] == ' ';
      } else if kinds[n].Title? {
        assert p == st.paragraph;
      } else {
        assert p == [];
      }
    }
  }

  // ---------------------------------------------------------------- bold

  lemma {:induction false} BoldFromPlain(s: string, i: nat)
    requires i <= |s|
    requires forall k :: i <= k < |s| - 1 ==> !(s[k] == '*' && s[k + 1] == '*')
    ensures BoldFrom(s, i) == s[i..]
    decreases |s| - i
  {
    if i + 2 <= |s| {
      BoldFromPlain(s, i + 1);
      assert s[i..] == [s[i]] + s[i + 1..];
    }
  }

  /** A line without `**` is left as it is. */
  lemma BoldPlain(s: string)
    requires !Contains(s, "**")
    ensures Bold(s) == s
  {
    forall k | 0 <= k < |s| - 1
      ensures !(s[k] == '*' && s[k + 1] == '*')
    {
      if s[k] == '*' && s[k + 1] == '*' {
        assert s[k..k + 2] == "**";
        ContainsAt(s, "**", k);
      }
    }
    BoldFromPlain(s, 0);
  }

  lemma {:induction false} PairAfterStarFree(s: string, k: nat, e: nat)
    requires k <= e && e + 2 <= |s| && s[e] == '*' && s[e + 1] == '*'
    requires forall m :: k <= m < e ==> s[m] != '*'
    ensures PairFrom(s, k) == e
    decreases e - k
  {
    if k < e {
      PairAfterStarFree(s, k + 1, e);
    }
  }

  /** `**x**` around star-free text becomes `<strong>x</strong>`. */
  lemma BoldWrapped(x: string)
    requires '*' !in x
    ensures Bold("**" + x + "**") == Element("strong", x)
  {
    var s := "**" + x + "**";
    var e := 2 + |x|;
    assert forall m :: 2 <= m < e ==> s[m] == x[m - 2];
    PairAfterStarFree(s, 2, e);
    assert s[2..e] == x;
    assert BoldFrom(s, e + 2) == [];
  }

  // ---------------------------------------------------------------- lists

  lemma NotItemChunk(s: string)
    requires |s| >= 2 && s[1] != 'l'
    ensures !IsItemChunk(s)
  {
    if |s| >= 4 {
      assert s[..4][1] == s[1];
    }
  }

  /** The relation between each item chunk and the chunk before it that a rule keeps:
      right after a chunk that starts with `<ul>`, or, under the corrected rule, after
      another item of the same list. */
  predicate ItemsPreceded(c: seq<string>, rule: ListRule)
  {
    forall k :: 0 < k < |c| && IsItemChunk(c[k]) ==>
      StartsWith(c[k - 1], "<ul>") || (rule == Corrected && IsItemChunk(c[k - 1]))
  }

  lemma StepKeepsItemsPreceded(st: State, kind: LineKind, rule: ListRule)
    requires st.chunks != [] && !IsItemChunk(st.chunks[0]) && ItemsPreceded(st.chunks, rule)
    ensures Step(st, kind, rule).chunks[0] == st.chunks[0] && ItemsPreceded(Step(st, kind, rule).chunks, rule)
  {
    var c := st.chunks;
    var p := st.paragraph;
    var r := Step(st, kind, rule).chunks;
    assert r[0] == c[0] by { assert c <= r; }
    var f := Flush(c, p);
    if p != [] { NotItemChunk(Element("p", Concat(p))); }
    assert ItemsPreceded(f, rule);
    match kind
    case Blank =>
    case Title(t) => NotItemChunk(Element("h1", t));
    case Heading2(t) => NotItemChunk(Element("h2", t));
    case Heading3(t) => NotItemChunk(Element("h3", t));
    case Item(t) =>
      NotItemChunk("<ul>");
      assert StartsWith("<ul>", "<ul>");
    case Plain(t) => NotItemChunk("</ul>");
  }

  /** As written, every item chunk comes right after a chunk that starts with `<ul>`:
      each item opens a list of its own, since the test sees the previous item. */
  lemma {:induction false} ItemsAfterOpen(head: string, kinds: seq<LineKind>)
    requires !IsItemChunk(head)
    ensures var c := Run(State([head], []), kinds, AsWritten).chunks;
      forall k :: 0 < k < |c| && IsItemChunk(c[k]) ==> StartsWith(c[k - 1], "<ul>")
  {
    RunKeepsItemsPreceded(head, kinds, AsWritten);
  }

  lemma {:induction false} RunKeepsItemsPreceded(head: string, kinds: seq<LineKind>, rule: ListRule)
    requires !IsItemChunk(head)
    ensures var c := Run(State([head], []), kinds, rule).chunks;
      c[0] == head && ItemsPreceded(c, rule)
  {
    if kinds != [] {
      var n := |kinds| - 1;
      RunKeepsItemsPreceded(head, kinds[..n], rule);
      StepKeepsItemsPreceded(Run(State([head], []), kinds[..n], rule), kinds[n], rule);
    }
  }

  /** Two items in a row: as written, the second opens a second list inside the first,
      and only one `</ul>` closes them. */
  lemma TwoItemsAsWritten(head: string, a: string, b: string)
    requires !StartsWith(head, "<ul>") && !IsItemChunk(head)
    requires a != [] && NoLeadingSpace(a) && NoTrailingSpace(a) && b != [] && NoLeadingSpace(b) && NoTrailingSpace(b)
    ensures Finish(Run(State([head], []), Kinds(["- " + a, "- " + b]), AsWritten)) ==
      [head, "<ul>", Element("li", a), "<ul>", Element("li", b), "</ul>"]
  {
    TwoItemLines(a, b);
    TwoItems(head, a, b, AsWritten);
  }

  /** Under the corrected rule the same two items share one list. */
  lemma TwoItemsCorrected(head: string, a: string, b: string)
    requires !StartsWith(head, "<ul>") && !IsItemChunk(head)
    requires a != [] && NoLeadingSpace(a) && NoTrailingSpace(a) && b != [] && NoLeadingSpace(b) && NoTrailingSpace(b)
    ensures Finish(Run(State([head], []), Kinds(["- " + a, "- " + b]), Corrected)) ==
      [head, "<ul>", Element("li", a), Element("li", b), "</ul>"]
  {
    TwoItemLines(a, b);
    TwoItems(head, a, b, Corrected);
  }

  lemma TwoItemLines(a: string, b: string)
    requires a != [] && NoLeadingSpace(a) && NoTrailingSpace(a) && b != [] && NoLeadingSpace(b) && NoTrailingSpace(b)
    ensures Kinds(["- " + a, "- " + b]) == [Item(a), Item(b)]
  {
    var lines := ["- " + a, "- " + b];
    assert lines[..1] == ["- " + a] && lines[..1][..0] == [];
    ItemLine(a);
    ItemLine(b);
  }

  /** `- x` is a list item of x. */
  lemma ItemLine(x: string)
    requires x != [] && NoLeadingSpace(x) && NoTrailingSpace(x)
    ensures Classify(Strip("- " + x)) == Item(x)
  {
    var line := "- " + x;
    assert line[|line| - 1] == x[|x| - 1];
    assert Strip(line) == line;
    assert !StartsWith(line, TitleLabel) by { assert line[0] != TitleLabel[0]; }
    assert !StartsWith(line, "# ") by { assert line[0] != '#'; }
    assert !StartsWith(line, "## ") by { assert line[0] != '#'; }
    assert StartsWith(line, "- ");
    assert line[2..] == x;
  }

  lemma TwoItems(head: string, a: string, b: string, rule: ListRule)
    requires !StartsWith(head, "<ul>") && !IsItemChunk(head)
    ensures var c := Finish(Run(State([head], []), [Item(a), Item(b)], rule));
      (rule == AsWritten ==> c == [head, "<ul>", Element("li", a), "<ul>", Element("li", b), "</ul>"]) &&
      (rule == Corrected ==> c == [head, "<ul>", Element("li", a), Element("li", b), "</ul>"])
  {
    var kinds := [Item(a), Item(b)];
    var init := State([head], []);
    assert kinds[..1] == [Item(a)];
    assert [Item(a)][..0] == [];
    assert Run(init, [], rule) == init;
    assert Run(init, [Item(a)], rule) == Step(Run(init, [], rule), Item(a), rule);
    var s1 := Run(init, kinds[..1], rule);
    assert s1 == Step(init, Item(a), rule);
    assert s1.chunks == [head, "<ul>", Element("li", a)];
    NotItemChunk("<ul>");
    assert IsItemChunk(Element("li", a)) && IsItemChunk(Element("li", b));
    assert !StartsWith(Element("li", a), "<ul>") by { assert Element("li", a)[1] != "<ul>"[1]; }
  }

  /** The intended rule: a list item opens a `<ul>` only when no list is open, so every
      item follows its list's `<ul>` or the previous item, and a `<ul>` never follows
      an item. */
  lemma {:induction false} CorrectedListsShared(head: string, kinds: seq<LineKind>)
    requires !IsItemChunk(head)
    ensures var c := Run(State([head], []), kinds, Corrected).chunks;
      ItemsPreceded(c, Corrected) && NoListAfterItem(c)
  {
    RunKeepsItemsPreceded(head, kinds, Corrected);
    RunOpensOnlyOutside(head, kinds);
  }

  predicate NoListAfterItem(c: seq<string>)
  {
    forall k :: 0 < k < |c| && c[k] == "<ul>" ==> !IsItemChunk(c[k - 1])
  }

  lemma {:induction false} RunOpensOnlyOutside(head: string, kinds: seq<LineKind>)
    ensures NoListAfterItem(Run(State([head], []), kinds, Corrected).chunks)
  {
    if kinds != [] {
      var n := |kinds| - 1;
      RunOpensOnlyOutside(head, kinds[..n]);
      StepOpensOnlyOutside(Run(State([head], []), kinds[..n], Corrected), kinds[n]);
    }
  }

  lemma StepOpensOnlyOutside(st: State, kind: LineKind)
    requires st.chunks != []
    requires NoListAfterItem(st.chunks)
    ensures NoListAfterItem(Step(st, kind, Corrected).chunks)
  {
    var p := st.paragraph;
    assert "<ul>" != "</ul>";
    if p != [] {
      var e := Element("p", Concat(p));
      assert e != "<ul>" by { assert e[1] != "<ul>"[1]; }
    }
    match kind
    case Blank =>
    case Title(t) => var e := Element("h1", t); assert e != "<ul>" by { assert e[1] != "<ul>"[1]; }
    case Heading2(t) => var e := Element("h2", t); assert e != "<ul>" by { assert e[1] != "<ul>"[1]; }
    case Heading3(t) => var e := Element("h3", t); assert e != "<ul>" by { assert e[1] != "<ul>"[1]; }
    case Item(t) => var e := Element("li", t); assert e != "<ul>" by { assert e[1] != "<ul>"[1]; }
    case Plain(t) =>
  }
}
