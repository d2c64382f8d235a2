/** What the builder does with a page's parsed HTML: the inline conversion
    of `_process_inline_elements` into ReportLab's paragraph mini-markup and
    the block handling of `_process_html_element`. The tree is the one
    BeautifulSoup builds; the BeautifulSoup queries it uses (`get_text`,
    `find`, `find_all`) are defined here on that tree. */
module Markup {
  import opened Wrappers
  import opened Model
  import opened Text
  import opened Styles

  // ---------------------------------------------------------------------
  // BeautifulSoup queries

  /** `e.get_text()`: every `Text` string below `e`, in document order. The
      model has a single kind of string, so the comments that BeautifulSoup
      leaves out of `get_text()` are counted here. */
  function GetText(e: Html): string
    decreases e
  {
    match e
    case Text(s) => s
    case Tag(_, _, cs) => ForestText(cs)
  }

  function ForestText(es: seq<Html>): string
    decreases es
  {
    if es == [] then "" else GetText(es[0]) + ForestText(es[1..])
  }

  predicate NamedOneOf(e: Html, names: set<string>) {
    e.Tag? && e.name in names
  }

  /** `find_all(names)` over a forest: every tag in it (at any depth) whose
      name is one of `names`, in document order (`FindAllInDocumentOrder`). */
  function FindAll(es: seq<Html>, names: set<string>): (r: seq<Html>)
    ensures forall x :: x in r ==> NamedOneOf(x, names)
    decreases es
  {
    if es == [] then []
    else
      (if NamedOneOf(es[0], names) then [es[0]] else [])
      + (if es[0].Tag? then FindAll(es[0].children, names) else [])
      + FindAll(es[1..], names)
  }

  /** Every node of a forest, each before its descendants and after its
      earlier siblings' subtrees: document order. */
  function Descendants(es: seq<Html>): seq<Html>
    decreases es
  {
    if es == [] then []
    else [es[0]] + (if es[0].Tag? then Descendants(es[0].children) else []) + Descendants(es[1..])
  }

  /** The nodes of `xs` that are tags named one of `names`, in their order. */
  function NamedIn(xs: seq<Html>, names: set<string>): (r: seq<Html>)
    ensures forall x :: x in r <==> x in xs && NamedOneOf(x, names)
  {
    if xs == [] then []
    else (if NamedOneOf(xs[0], names) then [xs[0]] else []) + NamedIn(xs[1..], names)
  }

  lemma {:induction false} NamedInConcat(a: seq<Html>, b: seq<Html>, names: set<string>)
    ensures NamedIn(a + b, names) == NamedIn(a, names) + NamedIn(b, names)
  {
    if a == [] {
      assert a + b == b;
    } else {
      assert (a + b)[0] == a[0];
      assert (a + b)[1..] == a[1..] + b;
      NamedInConcat(a[1..], b, names);
    }
  }

  /** `find_all` keeps exactly the matching tags of the whole forest, in
      document order: nothing it returns is missing from the walk, and
      nothing the walk meets that matches is missing from the result. */
  lemma {:induction false} FindAllInDocumentOrder(es: seq<Html>, names: set<string>)
    ensures FindAll(es, names) == NamedIn(Descendants(es), names)
    ensures forall x :: x in FindAll(es, names) <==> x in Descendants(es) && NamedOneOf(x, names)
    decreases es
  {
    if es != [] {
      var e := es[0];
      var kids := if e.Tag? then Descendants(e.children) else [];
      FindAllInDocumentOrder(es[1..], names);
      if e.Tag? {
        FindAllInDocumentOrder(e.children, names);
      }
      NamedInConcat([e] + kids, Descendants(es[1..]), names);
      NamedInConcat([e], kids, names);
      assert [e][1..] == [];
    }
  }

  /** `find_all(name, recursive=False)`: the direct children named `name`,
      in their order; every such child is found. */
  function ChildrenNamed(es: seq<Html>, name: string): (r: seq<Html>)
    ensures forall x :: x in r <==> x in es && NamedOneOf(x, {name})
  {
    NamedIn(es, {name})
  }

  // ---------------------------------------------------------------------
  // Inline conversion

  /** The ReportLab markup for the child tag `tag` whose converted content is `text`. */
  function WrapInline(tag: string, attrs: map<string, string>, text: string): string {
    if tag == "strong" || tag == "b" then "<b>" + text + "</b>"
    else if tag == "em" || tag == "i" then "<i>" + text + "</i>"
    else if tag == "code" then "<font face='Courier' size='9' backColor='#f0f0f0'>" + text + "</font>"
    else if tag == "a" then
      "<a href='" + (if "href" in attrs then attrs["href"] else "") + "' color='blue'><u>" + text + "</u></a>"
    else if tag == "br" then "<br/>"
    else text
  }

  /** `_process_inline_elements(e)` for a present element: a string is kept
      as it is; a tag yields the conversion of its children. */
  function Inline(e: Html): string {
    match e
    case Text(s) => s
    case Tag(_, _, cs) => InlineChildren(cs)
  }

  /** The concatenated conversions of the children `cs`. */
  function InlineChildren(cs: seq<Html>): string
    decreases cs
  {
    if cs == [] then ""
    else InlineChild(cs[0]) + InlineChildren(cs[1..])
  }

  /** The part one child contributes. */
  function InlineChild(c: Html): string
    decreases c
  {
    match c
    case Text(s) => s
    case Tag(name, attrs, cc) => WrapInline(Lower(name), attrs, InlineChildren(cc))
  }

  /** `_process_inline_elements(None)` is the empty string. */
  function InlineOpt(e: Option<Html>): string {
    match e
    case None => ""
    case Some(x) => Inline(x)
  }

  lemma {:induction false} InlineChildrenConcat(a: seq<Html>, b: seq<Html>)
    ensures InlineChildren(a + b) == InlineChildren(a) + InlineChildren(b)
  {
    if a == [] {
      assert a + b == b;
    } else {
      assert (a + b)[0] == a[0];
      assert (a + b)[1..] == a[1..] + b;
      InlineChildrenConcat(a[1..], b);
    }
  }

  /** One more child, taken in order. */
  lemma InlineChildrenStep(cs: seq<Html>, i: nat)
    requires i < |cs|
    ensures InlineChildren(cs[..i + 1]) == InlineChildren(cs[..i]) + InlineChild(cs[i])
  {
    assert cs[..i + 1] == cs[..i] + [cs[i]];
    InlineChildrenConcat(cs[..i], [cs[i]]);
  }

  /** A `<br>` child becomes `<br/>` and whatever it contains is dropped. */
  lemma BreakDropsContent(a: seq<Html>, attrs: map<string, string>, inner: seq<Html>, b: seq<Html>)
    ensures InlineChildren(a + [Tag("br", attrs, inner)] + b) == InlineChildren(a) + "<br/>" + InlineChildren(b)
  {
    var br := Tag("br", attrs, inner);
    InlineChildrenConcat(a + [br], b);
    InlineChildrenConcat(a, [br]);
    assert Lower("br") == "br";
    assert InlineChildren([br]) == "<br/>";
  }

  predicate IsFormatting(tag: string) {
    tag in {"strong", "b", "em", "i", "code", "a", "br"}
  }

  /** No tag below the root is one the conversion rewrites. */
  predicate PlainForest(es: seq<Html>)
    decreases es
  {
    forall i :: 0 <= i < |es| ==> PlainNode(es[i])
  }

  predicate PlainNode(e: Html)
    decreases e
  {
    match e
    case Text(_) => true
    case Tag(name, _, cs) => !IsFormatting(Lower(name)) && PlainForest(cs)
  }

  /** Without formatting tags the conversion is BeautifulSoup's plain text. */
  lemma {:induction false} PlainInlineIsText(cs: seq<Html>)
    requires PlainForest(cs)
    ensures InlineChildren(cs) == ForestText(cs)
    decreases cs
  {
    if cs != [] {
      assert PlainNode(cs[0]);
      assert PlainForest(cs[1..]) by {
        forall i | 0 <= i < |cs[1..]| ensures PlainNode(cs[1..][i]) {
          assert cs[1..][i] == cs[i + 1];
        }
      }
      PlainInlineIsText(cs[1..]);
      match cs[0]
      case Text(_) =>
      case Tag(name, attrs, cc) =>
        PlainInlineIsText(cc);
    }
  }

  // ---------------------------------------------------------------------
  // Code blocks

  /** The text of a `<pre>` block: that of its first `<code>` descendant, or its own. */
  function CodeText(e: Html): string {
    match e
    case Text(s) => s
    case Tag(_, _, cs) =>
      var codes := FindAll(cs, {"code"});
      if codes != [] then GetText(codes[0]) else ForestText(cs)
  }

  /** strip, then `<` to `&lt;`, then `>` to `&gt;`, then newline to `<br/>`. */
  function EscapeCode(s: string): string {
    ReplaceChar(ReplaceChar(ReplaceChar(Strip(s), '<', "&lt;"), '>', "&gt;"), '\n', "<br/>")
  }

  /** The escaped form of one character: the three replacements applied in order. */
  function EscapeChar(c: char): string {
    if c == '<' then "&lt;" else if c == '>' then "&gt;" else if c == '\n' then "<br/>" else [c]
  }

  function EscapeEach(s: string): string {
    if s == [] then "" else EscapeChar(s[0]) + EscapeEach(s[1..])
  }

  /** The three replacements in sequence act character by character: none
      of them produces a character a later one rewrites. */
  lemma EscapeCharIsChain(c: char)
    ensures ReplaceChar(ReplaceChar(ReplaceChar([c], '<', "&lt;"), '>', "&gt;"), '\n', "<br/>") == EscapeChar(c)
  {
    ReplaceSingle(c, '<', "&lt;");
    if c == '<' {
      assert '>' !in "&lt;" && '\n' !in "&lt;";
    } else {
      ReplaceSingle(c, '>', "&gt;");
      if c == '>' {
        assert '\n' !in "&gt;";
      } else {
        ReplaceSingle(c, '\n', "<br/>");
      }
    }
  }

  /** The three replacements in sequence act character by character: none
      of them produces a character a later one rewrites. */
  lemma {:induction false} ChainIsPerChar(s: string)
    ensures ReplaceChar(ReplaceChar(ReplaceChar(s, '<', "&lt;"), '>', "&gt;"), '\n', "<br/>") == EscapeEach(s)
  {
    if s != [] {
      var c, t := s[0], s[1..];
      assert s == [c] + t;
      ChainIsPerChar(t);
      EscapeCharIsChain(c);
      ReplaceCharConcat([c], t, '<', "&lt;");
      var r1c, r1t := ReplaceChar([c], '<', "&lt;"), ReplaceChar(t, '<', "&lt;");
      ReplaceCharConcat(r1c, r1t, '>', "&gt;");
      var r2c, r2t := ReplaceChar(r1c, '>', "&gt;"), ReplaceChar(r1t, '>', "&gt;");
      ReplaceCharConcat(r2c, r2t, '\n', "<br/>");
    }
  }

  /** The escaped code never holds a newline. */
  lemma EscapedHasNoNewline(s: string)
    ensures '\n' !in EscapeCode(s)
  {
  }

  /** A stripped text with no `<`, `>` or newline comes out unchanged; in
      particular `&` is left alone. */
  lemma EscapeKeepsCleanText(s: string)
    requires Strip(s) == s
    requires '<' !in s && '>' !in s && '\n' !in s
    ensures EscapeCode(s) == s
  {
  }

  /** Reads escaped code back: `<br/>` to newline, `&lt;` to `<`, `&gt;` to `>`. */
  function Unescape(r: string): string
    decreases |r|
  {
    if r == [] then []
    else if |r| >= 5 && r[..5] == "<br/>" then "\n" + Unescape(r[5..])
    else if |r| >= 4 && r[..4] == "&lt;" then "<" + Unescape(r[4..])
    else if |r| >= 4 && r[..4] == "&gt;" then ">" + Unescape(r[4..])
    else [r[0]] + Unescape(r[1..])
  }

  /** Unescaping reads back one escaped character at the front. */
  lemma UnescapeStep(c: char, rest: string)
    requires c != '&'
    ensures Unescape(EscapeChar(c) + rest) == [c] + Unescape(rest)
  {
    var r := EscapeChar(c) + rest;
    if c == '\n' {
      assert r[..5] == "<br/>" && r[5..] == rest;
    } else if c == '<' {
      assert |r| >= 5 ==> r[..5] != "<br/>" by { assert r[0] == '&' && "<br/>"[0] == '<'; }
      assert r[..4] == "&lt;" && r[4..] == rest;
    } else if c == '>' {
      assert |r| >= 5 ==> r[..5] != "<br/>" by { assert r[0] == '&' && "<br/>"[0] == '<'; }
      assert r[..4] != "&lt;" by { assert r[1] == 'g' && "&lt;"[1] == 'l'; }
      assert r[..4] == "&gt;" && r[4..] == rest;
    } else {
      assert r[0] == c && r[1..] == rest;
      assert |r| >= 5 ==> r[..5] != "<br/>" by { assert "<br/>"[0] == '<'; }
      assert |r| >= 4 ==> r[..4] != "&lt;" && r[..4] != "&gt;" by { assert "&lt;"[0] == '&' && "&gt;"[0] == '&'; }
    }
  }

  lemma {:induction false} UnescapeEscapeEach(t: string)
    requires '&' !in t
    ensures Unescape(EscapeEach(t)) == t
  {
    if t != [] {
      assert '&' !in t[1..] by { assert forall x :: x in t[1..] ==> x in t; }
      UnescapeEscapeEach(t[1..]);
      UnescapeStep(t[0], EscapeEach(t[1..]));
      assert t == [t[0]] + t[1..];
    }
  }

  /** Escaping loses only the surrounding whitespace for code without `&`;
      with `&` it is not invertible (`&lt;` and `<` escape alike). */
  lemma EscapeRoundTrip(s: string)
    requires '&' !in s
    ensures Unescape(EscapeCode(s)) == Strip(s)
  {
    ChainIsPerChar(Strip(s));
    assert '&' !in Strip(s) by {
      assert Strip(s) == LStrip(s)[..|Strip(s)|];
      assert forall x :: x in LStrip(s) ==> x in s;
    }
    UnescapeEscapeEach(Strip(s));
  }

  // The two lemmas below take their string literal as a parameter fixed by
  // `requires`, so that each is a statement about one named input.

  /** The text `&lt;` is left as it is. */
  lemma EscapeLiteralEntity(amp: string)
    requires amp == "&lt;"
    ensures EscapeCode(amp) == amp
  {
    assert !IsSpace(amp[0]) && !IsSpace(amp[3]);
    StripFixedPoint(amp);
    assert '<' !in amp && '>' !in amp && '\n' !in amp;
  }

  /** A lone `<` becomes `&lt;`. */
  lemma EscapeLessThan(lt: string)
    requires lt == "<"
    ensures EscapeCode(lt) == "&lt;"
  {
    assert !IsSpace(lt[0]);
    StripFixedPoint(lt);
    assert lt == ['<'];
    EscapeCharIsChain('<');
  }

  /** Because `&` is not escaped, the literal text `&lt;` and the character
      `<` escape to the same string. */
  lemma EscapeNotInjective(amp: string, lt: string)
    requires amp == "&lt;" && lt == "<"
    ensures amp != lt && EscapeCode(amp) == EscapeCode(lt)
  {
    EscapeLiteralEntity(amp);
    EscapeLessThan(lt);
  }

  // ---------------------------------------------------------------------
  // Tables

  /** The cells of a row: its `td` and `th` descendants. */
  function RowCells(row: Html): seq<Html> {
    match row
    case Text(_) => []
    case Tag(_, _, cs) => FindAll(cs, {"td", "th"})
  }

  predicate AllHeaderCells(cells: seq<Html>) {
    forall i :: 0 <= i < |cells| ==> cells[i].Tag? && cells[i].name == "th"
  }

  /** A row is kept unless it is empty or is a row of header cells as wide as the header row. */
  predicate KeepRow(cells: seq<Html>, headerCount: nat) {
    |cells| > 0 && !(|cells| == headerCount && AllHeaderCells(cells))
  }

  function InlineAll(es: seq<Html>): (r: seq<string>)
    ensures |r| == |es|
    ensures forall i :: 0 <= i < |es| ==> r[i] == Inline(es[i])
  {
    seq(|es|, i requires 0 <= i < |es| => Inline(es[i]))
  }

  /** What one `tr` contributes: its converted cells, if the row is kept. */
  function RowOut(row: Html, headerCount: nat): seq<seq<string>> {
    if KeepRow(RowCells(row), headerCount) then [InlineAll(RowCells(row))] else []
  }

  /** The kept body rows, converted cell by cell. */
  function BodyRows(rows: seq<Html>, headerCount: nat): seq<seq<string>> {
    if rows == [] then []
    else RowOut(rows[0], headerCount) + BodyRows(rows[1..], headerCount)
  }

  lemma {:induction false} BodyRowsAppend(rows: seq<Html>, row: Html, headerCount: nat)
    ensures BodyRows(rows + [row], headerCount) == BodyRows(rows, headerCount) + RowOut(row, headerCount)
  {
    if rows == [] {
      assert rows + [row] == [row];
    } else {
      assert (rows + [row])[0] == rows[0];
      assert (rows + [row])[1..] == rows[1..] + [row];
      BodyRowsAppend(rows[1..], row, headerCount);
    }
  }

  /** One more row, taken in order. */
  lemma BodyRowsStep(rows: seq<Html>, i: nat, headerCount: nat)
    requires i < |rows|
    ensures BodyRows(rows[..i + 1], headerCount) == BodyRows(rows[..i], headerCount) + RowOut(rows[i], headerCount)
  {
    assert rows[..i + 1] == rows[..i] + [rows[i]];
    BodyRowsAppend(rows[..i], rows[i], headerCount);
  }

  /** Every kept body row is non-empty and is not a repeat of the header row's shape. */
  lemma {:induction false} BodyRowsFiltered(rows: seq<Html>, headerCount: nat)
    ensures |BodyRows(rows, headerCount)| <= |rows|
    ensures forall r :: r in BodyRows(rows, headerCount) ==>
      exists row :: row in rows && KeepRow(RowCells(row), headerCount) && r == InlineAll(RowCells(row))
  {
    if rows != [] {
      BodyRowsFiltered(rows[1..], headerCount);
      forall r | r in BodyRows(rows, headerCount)
        ensures exists row :: row in rows && KeepRow(RowCells(row), headerCount) && r == InlineAll(RowCells(row))
      {
        if r in BodyRows(rows[1..], headerCount) {
          var row :| row in rows[1..] && KeepRow(RowCells(row), headerCount) && r == InlineAll(RowCells(row));
          assert row in rows;
        } else {
          assert rows[0] in rows;
        }
      }
    }
  }

  /** All `th` cells of the table, at any depth. */
  function HeaderCells(table: Html): seq<Html> {
    match table
    case Text(_) => []
    case Tag(_, _, cs) => FindAll(cs, {"th"})
  }

  function TableRowTags(table: Html): seq<Html> {
    match table
    case Text(_) => []
    case Tag(_, _, cs) => FindAll(cs, {"tr"})
  }

  /** `table_data`: the header row when there are header cells, then the kept rows. */
  function TableData(table: Html): seq<seq<string>> {
    var headers := HeaderCells(table);
    (if headers != [] then [InlineAll(headers)] else [])
    + BodyRows(TableRowTags(table), |headers|)
  }

  /** The header row comes first exactly when the table has header cells, and
      a row of header cells as wide as it is never repeated as a body row. */
  lemma TableHeaderFirst(table: Html)
    ensures HeaderCells(table) != [] ==> |TableData(table)| >= 1 && TableData(table)[0] == InlineAll(HeaderCells(table))
    ensures forall r :: r in BodyRows(TableRowTags(table), |HeaderCells(table)|) ==>
      exists row :: row in TableRowTags(table) && r == InlineAll(RowCells(row))
        && |RowCells(row)| > 0 && !(|RowCells(row)| == |HeaderCells(table)| && AllHeaderCells(RowCells(row)))
  {
    BodyRowsFiltered(TableRowTags(table), |HeaderCells(table)|);
  }

  // ---------------------------------------------------------------------
  // Blocks

  /** `tag in ['h1', ..., 'h6']`, written as a test on the two characters. */
  predicate IsHeadingTag(tag: string) {
    |tag| == 2 && tag[0] == 'h' && '1' <= tag[1] <= '6'
  }

  /** The character test accepts exactly the six heading names. */
  lemma HeadingTagNames(tag: string)
    ensures IsHeadingTag(tag) <==> tag in ["h1", "h2", "h3", "h4", "h5", "h6"]
  {
    if IsHeadingTag(tag) {
      assert tag == ['h', tag[1]];
    }
  }

  /** `int(tag[1])` for a heading tag. */
  function HeadingTagLevel(tag: string): (l: int)
    requires IsHeadingTag(tag)
    ensures 1 <= l <= 6
    ensures tag == ['h', ('0' as int + l) as char]
  {
    tag[1] as int - '0' as int
  }

  predicate IsContainerTag(tag: string) {
    tag == "div" || tag == "section" || tag == "article"
  }

  /** The flowables `_process_html_element(e)` returns. */
  function Blocks(e: Html): seq<Element>
    decreases e
  {
    match e
    case Text(s) =>
      var t := Strip(s);
      if t != "" then [Paragraph(t, CustomBody)] else []
    case Tag(name, attrs, cs) =>
      var tag := Lower(name);
      if IsContainerTag(tag) then ForestBlocks(cs) else TagBlocks(tag, e)
  }

  /** The flowables of a tag that is not a container; `tag` is the
      lower-cased tag name. */
  function TagBlocks(tag: string, e: Html): seq<Element>
    requires e.Tag?
  {
    if IsTextTag(tag) then TextTagBlocks(tag, e) else OtherTagBlocks(tag, e)
  }

  /** The branches of `_process_html_element` that yield one text block:
      headings, paragraphs, code blocks and quotes. */
  function TextTagBlocks(tag: string, e: Html): seq<Element>
    requires e.Tag? && IsTextTag(tag)
  {
    var cs := e.children;
    if IsHeadingTag(tag) then
      [Paragraph(Strip(GetText(e)), CustomHeading(HeadingTagLevel(tag)))]
    else if tag == "p" then
      var t := InlineChildren(cs);
      if Strip(t) != "" then [Paragraph(t, CustomBody)] else []
    else if tag == "pre" then
      [Preformatted(EscapeCode(CodeText(e)), CodeBlock)]
    else
      [Paragraph(InlineChildren(cs), BlockQuote)]
  }

  /** The remaining branches: lists, tables, rules and images; any other
      tag yields nothing. */
  function OtherTagBlocks(tag: string, e: Html): seq<Element>
    requires e.Tag?
  {
    var cs := e.children;
    if tag == "ul" || tag == "ol" then
      var items := InlineAll(ChildrenNamed(cs, "li"));
      if items != [] then [ListOf(items, tag == "ol")] else []
    else if tag == "table" then
      var data := TableData(e);
      if data != [] then [Table(data), Spacer(12)] else []
    else if tag == "hr" then
      [Rule]
    else if tag == "img" then
      [Paragraph("[Image: " + ImageLabel(e.attrs) + "]", CustomBody)]
    else []
  }

  /** `alt or src` of an `<img>`. */
  function ImageLabel(attrs: map<string, string>): string {
    var alt := if "alt" in attrs then attrs["alt"] else "";
    var src := if "src" in attrs then attrs["src"] else "";
    if alt != "" then alt else src
  }

  /** The flowables of a sequence of sibling nodes, in order. */
  function ForestBlocks(es: seq<Html>): seq<Element>
    decreases es
  {
    if es == [] then [] else Blocks(es[0]) + ForestBlocks(es[1..])
  }

  lemma AppendAssoc(a: seq<Element>, b: seq<Element>, c: seq<Element>)
    ensures a + (b + c) == (a + b) + c
  {
  }

  lemma {:induction false} ForestBlocksAppend(es: seq<Html>, e: Html)
    ensures ForestBlocks(es + [e]) == ForestBlocks(es) + Blocks(e)
  {
    if es == [] {
      assert es + [e] == [e];
    } else {
      assert (es + [e])[0] == es[0];
      assert (es + [e])[1..] == es[1..] + [e];
      ForestBlocksAppend(es[1..], e);
      AppendAssoc(Blocks(es[0]), ForestBlocks(es[1..]), Blocks(e));
    }
  }

  /** One more node of a forest, taken in order. */
  lemma ForestBlocksStep(es: seq<Html>, i: nat)
    requires i < |es|
    ensures ForestBlocks(es[..i + 1]) == ForestBlocks(es[..i]) + Blocks(es[i])
  {
    assert es[..i + 1] == es[..i] + [es[i]];
    ForestBlocksAppend(es[..i], es[i]);
  }

  /** Blocks never contain page breaks, and every paragraph style they name exists. */
  predicate BlockShaped(cfg: Config, x: Element) {
    !x.PageBreak? && !x.CondPageBreak? && !x.Image?
    && ((x.Paragraph? || x.Preformatted?) ==> StyleOf(cfg, x.style).Some?)
  }

  /** The tags whose branch yields one paragraph or preformatted block. */
  predicate IsTextTag(tag: string) {
    IsHeadingTag(tag) || tag == "p" || tag == "pre" || tag == "blockquote"
  }

  /** Headings, paragraphs, code blocks and quotes are text blocks with a style. */
  lemma TextTagBlocksShaped(cfg: Config, tag: string, e: Html)
    requires e.Tag? && IsTextTag(tag)
    ensures forall x :: x in TextTagBlocks(tag, e) ==> BlockShaped(cfg, x)
  {
    if IsHeadingTag(tag) {
      assert BlockShaped(cfg, Paragraph(Strip(GetText(e)), CustomHeading(HeadingTagLevel(tag))));
    }
  }

  /** Lists, tables, rules and images carry no break and no image flowable. */
  lemma OtherTagBlocksShaped(cfg: Config, tag: string, e: Html)
    requires e.Tag?
    ensures forall x :: x in OtherTagBlocks(tag, e) ==> BlockShaped(cfg, x)
  {
  }

  lemma TagBlocksShaped(cfg: Config, tag: string, e: Html)
    requires e.Tag?
    ensures forall x :: x in TagBlocks(tag, e) ==> BlockShaped(cfg, x)
  {
    if IsTextTag(tag) {
      TextTagBlocksShaped(cfg, tag, e);
    } else {
      OtherTagBlocksShaped(cfg, tag, e);
    }
  }

  lemma {:induction false} BlocksShaped(cfg: Config, e: Html)
    ensures forall x :: x in Blocks(e) ==> BlockShaped(cfg, x)
    decreases e
  {
    match e
    case Text(_) =>
    case Tag(name, _, cs) =>
      if IsContainerTag(Lower(name)) {
        ForestBlocksShaped(cfg, cs);
      } else {
        TagBlocksShaped(cfg, Lower(name), e);
      }
  }

  lemma {:induction false} ForestBlocksShaped(cfg: Config, es: seq<Html>)
    ensures forall x :: x in ForestBlocks(es) ==> BlockShaped(cfg, x)
    decreases es
  {
    if es != [] {
      BlocksShaped(cfg, es[0]);
      ForestBlocksShaped(cfg, es[1..]);
    }
  }
}
