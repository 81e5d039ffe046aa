/** The section renderer of walter/utils/text.py (walter/walter/utils/text.py is a
    line-for-line copy): an ordered dictionary from section key to section body is
    written out as Markdown, as an HTML fragment or as underlined plain text, and
    `format_output` picks the renderer by the lower-cased format name. */
module Text {
  import opened PyStr

  /** An insertion-ordered dictionary from section key to section body. */
  type Components = seq<(string, string)>

  datatype Renderer = Markdown | Html | PlainText

  const HtmlOpen: string := "<div class='walter-output'>"
  const HtmlClose: string := "</div>"

  /** The text one renderer writes for one dictionary entry. */
  function Section(r: Renderer, key: string, body: string): string {
    match r
    case Markdown => "### " + Title(key) + "\n\n" + body + "\n"
    case Html => "<h3>" + Title(key) + "</h3>\n<p>" + body + "</p>"
    case PlainText => Upper(key) + "\n" + Repeat('=', |key|) + "\n" + body + "\n"
  }

  /** The list `sections` after the renderer's loop over `components.items()`. */
  function Sections(r: Renderer, c: Components): seq<string> {
    seq(|c|, i requires 0 <= i < |c| => Section(r, c[i].0, c[i].1))
  }

  /** The document a renderer returns: its sections joined by newlines, and for
      HTML wrapped in one container div. */
  function Render(r: Renderer, c: Components): string {
    if r == Html then Join("\n", [HtmlOpen] + Sections(Html, c) + [HtmlClose])
    else Join("\n", Sections(r, c))
  }

  // ---------------------------------------------------------------------------
  // The three renderers and the dispatcher

  /** `format_markdown` */
  method FormatMarkdown(components: Components) returns (out: string)
    ensures out == Render(Markdown, components)
  {
    var sections: seq<string> := [];
    for i := 0 to |components|
      invariant |sections| == i
      invariant forall j :: 0 <= j < i ==> sections[j] == Section(Markdown, components[j].0, components[j].1)
    {
      var (title, content) := components[i];
      sections := sections + ["### " + Title(title) + "\n\n" + content + "\n"];
    }
    assert sections == Sections(Markdown, components);
    out := Join("\n", sections);
  }

  /** `format_html` */
  method FormatHtml(components: Components) returns (out: string)
    ensures out == Render(Html, components)
  {
    var sections: seq<string> := [];
    for i := 0 to |components|
      invariant |sections| == i
      invariant forall j :: 0 <= j < i ==> sections[j] == Section(Html, components[j].0, components[j].1)
    {
      var (title, content) := components[i];
      sections := sections + ["<h3>" + Title(title) + "</h3>\n<p>" + content + "</p>"];
    }
    assert sections == Sections(Html, components);
    out := Join("\n", [HtmlOpen] + sections + [HtmlClose]);
  }

  /** `format_text` */
  method FormatText(components: Components) returns (out: string)
    ensures out == Render(PlainText, components)
  {
    var sections: seq<string> := [];
    for i := 0 to |components|
      invariant |sections| == i
      invariant forall j :: 0 <= j < i ==> sections[j] == Section(PlainText, components[j].0, components[j].1)
    {
      var (title, content) := components[i];
      sections := sections + [Upper(title) + "\n" + Repeat('=', |title|) + "\n" + content + "\n"];
    }
    assert sections == Sections(PlainText, components);
    out := Join("\n", sections);
  }

  /** The `formatters` dictionary of `format_output`. */
  const Formatters: map<string, Renderer> := map["markdown" := Markdown, "html" := Html, "text" := PlainText]

  /** `formatters.get(format.lower(), format_text)`: the renderer is chosen by the
      lower-cased name, and every other name selects plain text. */
  function SelectRenderer(format: string): (r: Renderer)
    ensures r == Markdown <==> Lower(format) == "markdown"
    ensures r == Html <==> Lower(format) == "html"
    ensures r == PlainText <==> Lower(format) != "markdown" && Lower(format) != "html"
  {
    var name := Lower(format);
    if name in Formatters then Formatters[name] else PlainText
  }

  /** `format_output`: never fails, whatever the format name. */
  method FormatOutput(components: Components, format: string := "markdown") returns (out: string)
    ensures out == Render(SelectRenderer(format), components)
  {
    var renderer := SelectRenderer(format);
    match renderer
    case Markdown => out := FormatMarkdown(components);
    case Html => out := FormatHtml(components);
    case PlainText => out := FormatText(components);
  }

  // ---------------------------------------------------------------------------
  // Format selection

  /** Format names differing only in case select the same renderer. */
  lemma SelectRendererIgnoresCase(format: string)
    ensures SelectRenderer(format) == SelectRenderer(Lower(format))
    ensures SelectRenderer("Markdown") == SelectRenderer("MARKDOWN") == Markdown
    ensures SelectRenderer("HTML") == SelectRenderer("Html") == Html
    ensures SelectRenderer("Text") == SelectRenderer("TEXT") == PlainText
  {
    LowerIdempotent(format);
    assert Lower("Markdown") == Lower("MARKDOWN") == "markdown";
    assert Lower("HTML") == Lower("Html") == "html";
    assert Lower("Text") == Lower("TEXT") == "text";
  }

  /** A name that is none of the three after lower-casing falls back to plain text. */
  lemma UnknownFormatIsPlainText(format: string, c: Components)
    requires Lower(format) !in Formatters
    ensures SelectRenderer(format) == PlainText
    ensures Render(SelectRenderer(format), c) == Render(PlainText, c)
    ensures SelectRenderer("xml") == PlainText && SelectRenderer("md") == PlainText
  {
    assert Lower("xml") == "xml";
    assert Lower("md") == "md";
  }

  // ---------------------------------------------------------------------------
  // Whole documents

  /** With no components, Markdown and plain text are empty and HTML is the bare
      container. */
  lemma EmptyDocuments()
    ensures Render(Markdown, []) == ""
    ensures Render(PlainText, []) == ""
    ensures Render(Html, []) == "<div class='walter-output'>\n</div>"
  {
    assert Sections(Html, []) == [];
    assert [HtmlOpen] + [] + [HtmlClose] == [HtmlOpen, HtmlClose];
    assert Join("\n", [HtmlOpen, HtmlClose]) == HtmlOpen + "\n" + HtmlClose;
  }

  lemma SectionsConcat(r: Renderer, a: Components, b: Components)
    ensures Sections(r, a + b) == Sections(r, a) + Sections(r, b)
  {
  }

  /** Rendering two runs of components one after the other renders each run on its
      own and joins the results: no section is dropped, merged or moved. */
  lemma RenderConcat(r: Renderer, a: Components, b: Components)
    requires r != Html
    requires a != [] && b != []
    ensures Render(r, a + b) == Render(r, a) + "\n" + Render(r, b)
  {
    SectionsConcat(r, a, b);
    JoinAppend("\n", Sections(r, a), Sections(r, b));
  }

  /** Whatever the bodies hold, the HTML document opens with the container's
      opening tag on a line of its own and closes with its closing tag. */
  lemma {:induction false} HtmlWrapped(c: Components)
    ensures var out := Render(Html, c);
      |out| >= |HtmlOpen| + 1 + |HtmlClose| &&
      out[..|HtmlOpen| + 1] == HtmlOpen + "\n" &&
      out[|out| - |HtmlClose| - 1..] == "\n" + HtmlClose
  {
    var inner := Sections(Html, c) + [HtmlClose];
    assert [HtmlOpen] + Sections(Html, c) + [HtmlClose] == [HtmlOpen] + inner;
    JoinAppend("\n", [HtmlOpen], inner);
    var out := Render(Html, c);
    var rest := Join("\n", inner);
    var front: string;
    if Sections(Html, c) == [] {
      assert inner == [HtmlClose];
      front := HtmlOpen;
    } else {
      JoinAppend("\n", Sections(Html, c), [HtmlClose]);
      front := HtmlOpen + "\n" + Join("\n", Sections(Html, c));
    }
    assert out == (HtmlOpen + "\n") + rest;
    assert out == front + ("\n" + HtmlClose);
    SplitAt(HtmlOpen + "\n", rest);
    SplitAt(front, "\n" + HtmlClose);
  }

  // ---------------------------------------------------------------------------
  // Line structure

  /** No key and no body holds a newline. */
  predicate SingleLine(c: Components) {
    forall i :: 0 <= i < |c| ==> '\n' !in c[i].0 && '\n' !in c[i].1
  }

  /** The lines one section occupies in the document. */
  function SectionLines(r: Renderer, key: string, body: string): seq<string> {
    match r
    case Markdown => ["### " + Title(key), "", body, ""]
    case Html => ["<h3>" + Title(key) + "</h3>", "<p>" + body + "</p>"]
    case PlainText => [Upper(key), Repeat('=', |key|), body, ""]
  }

  /** The lines of all sections, in component order. */
  function BodyLines(r: Renderer, c: Components): seq<string>
    decreases |c|
  {
    if c == [] then [] else SectionLines(r, c[0].0, c[0].1) + BodyLines(r, c[1..])
  }

  /** Four lines, the last one empty: `l0 \n l1 \n l2 \n`. */
  lemma SplitFourLines(l0: string, l1: string, l2: string)
    requires '\n' !in l0 && '\n' !in l1 && '\n' !in l2
    ensures Split(l0 + "\n" + l1 + "\n" + l2 + "\n", '\n') == [l0, l1, l2, ""]
  {
    var tail2 := l2 + "\n" + "";
    var tail1 := l1 + "\n" + tail2;
    assert l0 + "\n" + l1 + "\n" + l2 + "\n" == l0 + "\n" + tail1;
    SplitFirstLine(l0, tail1, '\n');
    SplitFirstLine(l1, tail2, '\n');
    SplitFirstLine(l2, "", '\n');
  }

  lemma MarkdownSectionSplit(key: string, body: string)
    requires '\n' !in key && '\n' !in body
    ensures Split(Section(Markdown, key, body), '\n') == SectionLines(Markdown, key, body)
  {
    NoNewlineAfterCase(key);
    var h := "### " + Title(key);
    assert Section(Markdown, key, body) == h + "\n" + "" + "\n" + body + "\n";
    SplitFourLines(h, "", body);
  }

  lemma HtmlSectionSplit(key: string, body: string)
    requires '\n' !in key && '\n' !in body
    ensures Split(Section(Html, key, body), '\n') == SectionLines(Html, key, body)
  {
    NoNewlineAfterCase(key);
    var h := "<h3>" + Title(key) + "</h3>";
    var p := "<p>" + body + "</p>";
    assert Section(Html, key, body) == h + "\n" + p;
    SplitFirstLine(h, p, '\n');
    SplitNoSeparator(p, '\n');
  }

  lemma PlainSectionSplit(key: string, body: string)
    requires '\n' !in key && '\n' !in body
    ensures Split(Section(PlainText, key, body), '\n') == SectionLines(PlainText, key, body)
  {
    NoNewlineAfterCase(key);
    var e := Repeat('=', |key|);
    assert '\n' !in e;
    SplitFourLines(Upper(key), e, body);
  }

  lemma SectionSplit(r: Renderer, key: string, body: string)
    requires '\n' !in key && '\n' !in body
    ensures Split(Section(r, key, body), '\n') == SectionLines(r, key, body)
  {
    match r
    case Markdown => MarkdownSectionSplit(key, body);
    case Html => HtmlSectionSplit(key, body);
    case PlainText => PlainSectionSplit(key, body);
  }

  lemma {:induction false} SplitSections(r: Renderer, c: Components)
    requires SingleLine(c)
    ensures SplitEach(Sections(r, c), '\n') == BodyLines(r, c)
    decreases |c|
  {
    if c != [] {
      SectionSplit(r, c[0].0, c[0].1);
      assert Sections(r, c)[1..] == Sections(r, c[1..]);
      SplitSections(r, c[1..]);
    }
  }

  lemma {:induction false} BodyLinesAppend(r: Renderer, a: Components, b: Components)
    ensures BodyLines(r, a + b) == BodyLines(r, a) + BodyLines(r, b)
    decreases |a|
  {
    if a == [] {
      assert a + b == b;
    } else {
      assert (a + b)[0] == a[0];
      assert (a + b)[1..] == a[1..] + b;
      BodyLinesAppend(r, a[1..], b);
    }
  }

  lemma {:induction false} BodyLinesLength(r: Renderer, c: Components)
    ensures |BodyLines(r, c)| == if r == Html then 2 * |c| else 4 * |c|
    decreases |c|
  {
    if c != [] {
      BodyLinesLength(r, c[1..]);
    }
  }

  /** Section `i` occupies its own block of lines, right after the blocks of the
      sections before it. */
  lemma BodyLinesAt(r: Renderer, c: Components, i: nat)
    requires i < |c|
    ensures BodyLines(r, c) == BodyLines(r, c[..i]) + SectionLines(r, c[i].0, c[i].1) + BodyLines(r, c[i + 1..])
  {
    assert c == c[..i] + ([c[i]] + c[i + 1..]);
    BodyLinesAppend(r, c[..i], [c[i]] + c[i + 1..]);
    assert ([c[i]] + c[i + 1..])[1..] == c[i + 1..];
  }

  /** The lines of a Markdown or plain-text document. */
  lemma DocumentSplit(r: Renderer, c: Components)
    requires SingleLine(c) && r != Html && c != []
    ensures Split(Render(r, c), '\n') == BodyLines(r, c)
  {
    SplitSections(r, c);
    SplitJoinEach(Sections(r, c), '\n');
  }

  /** The lines of an HTML document. */
  lemma HtmlDocumentSplit(c: Components)
    requires SingleLine(c)
    ensures Split(Render(Html, c), '\n') == [HtmlOpen] + BodyLines(Html, c) + [HtmlClose]
  {
    var sections := Sections(Html, c);
    var rest := sections + [HtmlClose];
    assert Render(Html, c) == Join("\n", [HtmlOpen] + rest) by {
      assert [HtmlOpen] + sections + [HtmlClose] == [HtmlOpen] + rest;
    }
    OpeningLine(rest);
    assert SplitEach(rest, '\n') == BodyLines(Html, c) + [HtmlClose] by {
      ClosingLine(sections);
      SplitSections(Html, c);
    }
  }

  lemma OpeningLine(rest: seq<string>)
    ensures Split(Join("\n", [HtmlOpen] + rest), '\n') == [HtmlOpen] + SplitEach(rest, '\n')
  {
    SplitJoinEach([HtmlOpen] + rest, '\n');
    assert ([HtmlOpen] + rest)[1..] == rest;
    TagsAreSingleLines();
  }

  lemma TagsAreSingleLines()
    ensures Split(HtmlOpen, '\n') == [HtmlOpen]
    ensures Split(HtmlClose, '\n') == [HtmlClose]
  {
    SplitNoSeparator(HtmlOpen, '\n');
    SplitNoSeparator(HtmlClose, '\n');
  }

  lemma ClosingLine(sections: seq<string>)
    ensures SplitEach(sections + [HtmlClose], '\n') == SplitEach(sections, '\n') + [HtmlClose]
  {
    SplitEachAppend(sections, [HtmlClose], '\n');
    TagsAreSingleLines();
    assert [HtmlClose][1..] == [];
  }

  /** Section `i` of a four-line renderer sits at lines 4i to 4i+3. */
  lemma FourLineBlock(r: Renderer, c: Components, i: nat)
    requires r != Html && i < |c|
    ensures |BodyLines(r, c)| == 4 * |c|
    ensures BodyLines(r, c)[4 * i..4 * i + 4] == SectionLines(r, c[i].0, c[i].1)
  {
    BodyLinesLength(r, c);
    BodyLinesAt(r, c, i);
    BodyLinesLength(r, c[..i]);
  }

  /** A Markdown document of N single-line components has 4N lines: for the i-th
      component a `### ` heading with its title-cased key, a blank line, its body
      and a blank line, in component order. */
  lemma MarkdownLayout(c: Components)
    requires c != [] && SingleLine(c)
    ensures var lines := Split(Render(Markdown, c), '\n');
      |lines| == 4 * |c| &&
      forall i :: 0 <= i < |c| ==>
        lines[4 * i..4 * i + 4] == ["### " + Title(c[i].0), "", c[i].1, ""]
  {
    DocumentSplit(Markdown, c);
    BodyLinesLength(Markdown, c);
    forall i | 0 <= i < |c|
      ensures BodyLines(Markdown, c)[4 * i..4 * i + 4] == SectionLines(Markdown, c[i].0, c[i].1)
    {
      FourLineBlock(Markdown, c, i);
    }
  }

  /** A plain-text document of N single-line components has 4N lines: for the
      i-th component its upper-cased key, a row of `=` exactly as long as the key,
      its body and a blank line, in component order. */
  lemma PlainTextLayout(c: Components)
    requires c != [] && SingleLine(c)
    ensures var lines := Split(Render(PlainText, c), '\n');
      |lines| == 4 * |c| &&
      forall i :: 0 <= i < |c| ==>
        lines[4 * i..4 * i + 4] == [Upper(c[i].0), Repeat('=', |c[i].0|), c[i].1, ""] &&
        |lines[4 * i + 1]| == |lines[4 * i]| == |c[i].0|
  {
    DocumentSplit(PlainText, c);
    BodyLinesLength(PlainText, c);
    var lines := BodyLines(PlainText, c);
    forall i | 0 <= i < |c|
      ensures lines[4 * i..4 * i + 4] == [Upper(c[i].0), Repeat('=', |c[i].0|), c[i].1, ""]
      ensures |lines[4 * i + 1]| == |lines[4 * i]| == |c[i].0|
    {
      FourLineBlock(PlainText, c, i);
      assert lines[4 * i] == lines[4 * i..4 * i + 4][0];
      assert lines[4 * i + 1] == lines[4 * i..4 * i + 4][1];
    }
  }

  /** An HTML document of N single-line components has 2N + 2 lines: the opening
      container tag, then for the i-th component an `h3` line with its title-cased
      key and a `p` line with its body (inserted unescaped), then the closing tag. */
  lemma HtmlLayout(c: Components)
    requires SingleLine(c)
    ensures var lines := Split(Render(Html, c), '\n');
      |lines| == 2 * |c| + 2 &&
      lines[0] == HtmlOpen && lines[|lines| - 1] == HtmlClose &&
      forall i :: 0 <= i < |c| ==>
        lines[2 * i + 1..2 * i + 3] == ["<h3>" + Title(c[i].0) + "</h3>", "<p>" + c[i].1 + "</p>"]
  {
    HtmlDocumentSplit(c);
    BodyLinesLength(Html, c);
    var body := BodyLines(Html, c);
    forall i | 0 <= i < |c|
      ensures body[2 * i..2 * i + 2] == SectionLines(Html, c[i].0, c[i].1)
    {
      BodyLinesAt(Html, c, i);
      BodyLinesLength(Html, c[..i]);
    }
  }
}
