/** `PDFBuilder` and the canvas its page callback draws on. The builder's
    methods work as the source does, loop by loop and call by call, and each
    is proved to produce what the specification functions of the other
    modules describe. */
module Builder {
  import opened Wrappers
  import opened Model
  import opened Text
  import opened Styles
  import opened Toc
  import opened Markup
  import opened Content
  import opened Cover
  import opened PageDecor
  import opened Story

  /** A ReportLab canvas, reduced to the record of the calls made on it. */
  class Canvas {
    var commands: seq<DrawCmd>

    constructor()
      ensures commands == []
    {
      commands := [];
    }

    method SaveState()
      modifies this
      ensures commands == old(commands) + [DrawCmd.SaveState]
    {
      commands := commands + [DrawCmd.SaveState];
    }

    method RestoreState()
      modifies this
      ensures commands == old(commands) + [DrawCmd.RestoreState]
    {
      commands := commands + [DrawCmd.RestoreState];
    }

    method SetFont(font: string, size: int)
      modifies this
      ensures commands == old(commands) + [DrawCmd.SetFont(font, size)]
    {
      commands := commands + [DrawCmd.SetFont(font, size)];
    }

    method SetFillColor(color: string)
      modifies this
      ensures commands == old(commands) + [DrawCmd.SetFillColor(color)]
    {
      commands := commands + [DrawCmd.SetFillColor(color)];
    }

    method DrawString(x: real, y: real, text: string)
      modifies this
      ensures commands == old(commands) + [DrawCmd.DrawString(x, y, text)]
    {
      commands := commands + [DrawCmd.DrawString(x, y, text)];
    }

    method DrawRightString(x: real, y: real, text: string)
      modifies this
      ensures commands == old(commands) + [DrawCmd.DrawRightString(x, y, text)]
    {
      commands := commands + [DrawCmd.DrawRightString(x, y, text)];
    }

    method Line(x1: real, y1: real, x2: real, y2: real)
      modifies this
      ensures commands == old(commands) + [DrawCmd.Line(x1, y1, x2, y2)]
    {
      commands := commands + [DrawCmd.Line(x1, y1, x2, y2)];
    }
  }

  class PdfBuilder {
    const config: Config
    const pageSize: PageSize
    var tocEntries: seq<TocRecord>
    var currentPageNum: int

    /** The page size always follows the configuration. */
    predicate Valid() {
      pageSize == PageSizeFor(config.pageSize)
    }

    constructor(config: Config)
      ensures this.config == config && Valid()
      ensures tocEntries == [] && currentPageNum == 1
    {
      this.config := config;
      pageSize := if config.pageSize == "Letter" then LetterSize else A4Size;
      tocEntries := [];
      currentPageNum := 1;
    }

    /** `_create_toc(pages, depth)`: returns the flowables of the table of
        contents and appends one record per listed page to `toc_entries`. */
    method CreateToc(pages: seq<PageNode>, depth: nat) returns (elements: seq<Element>)
      modifies this`tocEntries
      ensures elements == TocElements(pages, depth, config.tocDepth)
      ensures tocEntries == old(tocEntries) + TocRecords(pages, depth, config.tocDepth)
      decreases pages
    {
      var td := config.tocDepth;
      ghost var start := tocEntries;
      var entries: seq<Element> := [];
      var i := 0;
      while i < |pages|
        invariant 0 <= i <= |pages|
        invariant tocEntries == start + TocRecords(pages[..i], depth, td)
        invariant entries == EntryParagraphs(TocRecords(pages[..i], depth, td))
      {
        var page := pages[i];
        TocRecordsStep(pages, i, depth, td);
        var more := TocPage(page, depth);
        entries := entries + more;
        i := i + 1;
      }
      assert pages[..i] == pages;
      elements := (if depth == 0 then [TocTitle] else []) + entries + (if depth == 0 then [PageBreak] else []);
    }

    /** One iteration of `_create_toc`: a link is skipped; a page above
        `toc_depth` gets its record and entry, then its children's. */
    method TocPage(page: PageNode, depth: nat) returns (entries: seq<Element>)
      modifies this`tocEntries
      ensures entries == EntryParagraphs(NodeRecords(page, depth, config.tocDepth))
      ensures tocEntries == old(tocEntries) + NodeRecords(page, depth, config.tocDepth)
      decreases page
    {
      entries := [];
      if IsLink(page) {
        // skipped together with its subtree
      } else if depth < config.tocDepth {
        var entry := TocRecord(TitleOf(page), page.id, TocLevel(depth));
        tocEntries := tocEntries + [entry];
        var kids: seq<Element> := [];
        if page.children != [] {
          kids := CreateToc(page.children, depth + 1);
        }
        EntryParagraphsConcat([entry], TocRecords(page.children, depth + 1, config.tocDepth));
        entries := [EntryParagraph(entry)] + kids;
      }
    }

    /** `_process_inline_elements(e)`. */
    method ProcessInline(e: Option<Html>) returns (s: string)
      ensures s == InlineOpt(e)
    {
      match e
      case None => s := "";
      case Some(x) =>
        match x
        case Text(t) => s := t;
        case Tag(_, _, _) => s := InlineTag(x);
    }

    /** The loop of `_process_inline_elements` over the children of a tag:
        one part per child, joined. */
    method InlineTag(e: Html) returns (s: string)
      requires e.Tag?
      ensures s == InlineChildren(e.children)
      decreases e
    {
      var cs := e.children;
      var parts: seq<string> := [];
      var i := 0;
      while i < |cs|
        invariant 0 <= i <= |cs|
        invariant Concat(parts) == InlineChildren(cs[..i])
      {
        var child := cs[i];
        var part: string;
        if child.Text? {
          part := child.text;
        } else {
          var text := InlineTag(child);
          part := WrapInline(Lower(child.name), child.attrs, text);
        }
        assert part == InlineChild(child);
        InlineChildrenStep(cs, i);
        ConcatAppend(parts, part);
        parts := parts + [part];
        i := i + 1;
      }
      assert cs[..i] == cs;
      s := Concat(parts);
    }

    /** The inline conversion of each of `es`, in order (list items, table cells). */
    method ProcessEach(es: seq<Html>) returns (r: seq<string>)
      ensures r == InlineAll(es)
    {
      r := [];
      var i := 0;
      while i < |es|
        invariant 0 <= i <= |es|
        invariant r == InlineAll(es[..i])
      {
        var s := ProcessInline(Some(es[i]));
        r := r + [s];
        i := i + 1;
      }
      assert es[..i] == es;
    }

    /** `table_data`: the header row, then each row that is kept. */
    method TableRows(table: Html) returns (data: seq<seq<string>>)
      ensures data == TableData(table)
    {
      var headers := HeaderCells(table);
      data := [];
      if headers != [] {
        var headerRow := ProcessEach(headers);
        data := data + [headerRow];
      }
      var body := KeptRows(TableRowTags(table), |headers|);
      data := data + body;
    }

    /** The loop of the table branch over its `tr` rows. */
    method KeptRows(rows: seq<Html>, headerCount: nat) returns (data: seq<seq<string>>)
      ensures data == BodyRows(rows, headerCount)
    {
      data := [];
      var i := 0;
      while i < |rows|
        invariant 0 <= i <= |rows|
        invariant data == BodyRows(rows[..i], headerCount)
      {
        var row := rows[i];
        var cells := RowCells(row);
        BodyRowsStep(rows, i, headerCount);
        assert RowOut(row, headerCount) == if KeepRow(cells, headerCount) then [InlineAll(cells)] else [];
        if KeepRow(cells, headerCount) {
          var rowData := ProcessEach(cells);
          data := data + [rowData];
        }
        i := i + 1;
      }
      assert rows[..i] == rows;
    }

    /** `_process_html_element(e)`. */
    method ProcessHtmlElement(e: Html) returns (fs: seq<Element>)
      ensures fs == Blocks(e)
      decreases e
    {
      match e
      case Text(s) =>
        var t := Strip(s);
        fs := if t != "" then [Paragraph(t, CustomBody)] else [];
      case Tag(name, attrs, cs) =>
        var tag := Lower(name);
        if IsContainerTag(tag) {
          fs := [];
          var i := 0;
          while i < |cs|
            invariant 0 <= i <= |cs|
            invariant fs == ForestBlocks(cs[..i])
          {
            var child := ProcessHtmlElement(cs[i]);
            ForestBlocksStep(cs, i);
            fs := fs + child;
            i := i + 1;
          }
          assert cs[..i] == cs;
        } else {
          fs := ProcessLeafTag(tag, e);
        }
    }

    /** The branches of `_process_html_element` for a tag that is not a container. */
    method ProcessLeafTag(tag: string, e: Html) returns (fs: seq<Element>)
      requires e.Tag?
      ensures fs == TagBlocks(tag, e)
    {
      var cs := e.children;
      if IsHeadingTag(tag) {
        fs := [Paragraph(Strip(GetText(e)), CustomHeading(HeadingTagLevel(tag)))];
      } else if tag == "p" {
        var text := InlineTag(e);
        fs := if Strip(text) != "" then [Paragraph(text, CustomBody)] else [];
      } else if tag == "pre" {
        fs := [Preformatted(EscapeCode(CodeText(e)), CodeBlock)];
      } else if tag == "blockquote" {
        var text := InlineTag(e);
        fs := [Paragraph(text, BlockQuote)];
      } else if tag == "ul" || tag == "ol" {
        var items := ProcessEach(ChildrenNamed(cs, "li"));
        fs := if items != [] then [ListOf(items, tag == "ol")] else [];
      } else if tag == "table" {
        var data := TableRows(e);
        fs := if data != [] then [Table(data), Spacer(12)] else [];
      } else if tag == "hr" {
        fs := [Rule];
      } else if tag == "img" {
        fs := [Paragraph("[Image: " + ImageLabel(e.attrs) + "]", CustomBody)];
      } else {
        fs := [];
      }
    }

    /** `_markdown_to_elements`, from the top-level nodes of the parsed page. */
    method MarkdownToElements(nodes: seq<Html>) returns (elements: seq<Element>)
      ensures elements == ForestBlocks(nodes)
    {
      elements := [];
      var i := 0;
      while i < |nodes|
        invariant 0 <= i <= |nodes|
        invariant elements == ForestBlocks(nodes[..i])
      {
        var fs := ProcessHtmlElement(nodes[i]);
        ForestBlocksStep(nodes, i);
        elements := elements + fs;
        i := i + 1;
      }
      assert nodes[..i] == nodes;
    }

    /** `_process_pages(pages, depth)`; `fetch` stands for the API request
        and the markdown conversion of one page. */
    method ProcessPages(fetch: Fetch, pages: seq<PageNode>, depth: nat) returns (elements: seq<Element>)
      ensures elements == ContentElements(config, fetch, pages, depth)
      decreases pages
    {
      elements := [];
      var i := 0;
      while i < |pages|
        invariant 0 <= i <= |pages|
        invariant elements == ContentElements(config, fetch, pages[..i], depth)
      {
        var page := pages[i];
        ContentStep(config, fetch, pages, i, depth);
        if IsLink(page) {
          // links are skipped
        } else if page.hidden && !config.includeHiddenPages {
          // hidden pages are skipped unless included
        } else {
          var block := PageBlockOf(fetch, page, depth);
          var kids: seq<Element> := [];
          if page.children != [] {
            kids := ProcessPages(fetch, page.children, depth + 1);
          }
          elements := elements + (block + kids);
        }
        i := i + 1;
      }
      assert pages[..i] == pages;
    }

    /** The flowables one kept page adds before those of its children. */
    method PageBlockOf(fetch: Fetch, page: PageNode, depth: nat) returns (block: seq<Element>)
      ensures block == PageBlock(config, fetch, page, depth)
    {
      var title := TitleOf(page);
      var level := HeadingLevel(depth);
      var head: seq<Element> := [];
      if depth == 0 {
        head := [CondPageBreak(TopLevelBreak)];
      }
      var desc: seq<Element> := [];
      if config.includePageDescriptions && page.description != "" {
        desc := [Paragraph(page.description, PageDescription)];
      }
      var fetched := FetchPage(fetch, page);
      block := head + [Paragraph(title, CustomHeading(level))] + desc + fetched + [Spacer(12)];
    }

    /** The content of a document page with an id, when its request and conversion succeed. */
    method FetchPage(fetch: Fetch, page: PageNode) returns (fetched: seq<Element>)
      ensures fetched == FetchedBlocks(fetch, page)
    {
      fetched := [];
      if KindOf(page) == Document && page.id != "" {
        var parsed := fetch(page.id);
        if parsed.Some? {
          fetched := MarkdownToElements(parsed.value);
        }
      }
    }

    /** `_create_cover_page`; `dateText` is today's date, already formatted. */
    method CreateCoverPage(space: Dict, org: Option<Dict>, dateText: string, decode: Decoder)
      returns (elements: seq<Element>)
      ensures elements == CoverElements(config, space, org, dateText, decode)
    {
      var logo := ImageBlock(config.coverLogo, decode, CoverLogo);
      var image := ImageBlock(config.coverImage, decode, CoverImage);
      var title := if config.coverTitle != "" then config.coverTitle else Get(space, "title", "Documentation");
      var subtitle: seq<Element> := [];
      if config.coverSubtitle != "" {
        subtitle := [Paragraph(config.coverSubtitle, CoverSubtitle)];
      } else if Get(space, "description", "") != "" {
        subtitle := [Paragraph(space["description"], CoverSubtitle)];
      }
      var metaParts := CoverMetaParts(org, dateText);
      var meta: seq<Element> := [];
      if metaParts != [] {
        meta := [Paragraph(Join(metaParts, "<br/>"), CoverMeta)];
      }
      assert title == CoverTitleText(config, space);
      assert subtitle == SubtitleBlock(config, space);
      assert meta == MetaBlock(MetaLines(config, org, dateText));
      elements := [Spacer(144)] + logo + image + [Paragraph(title, CoverTitle)] + subtitle + [Spacer(72)] + meta + [PageBreak];
    }

    /** `meta_parts` of the cover. */
    method CoverMetaParts(org: Option<Dict>, dateText: string) returns (metaParts: seq<string>)
      ensures metaParts == MetaLines(config, org, dateText)
    {
      metaParts := [];
      if config.showVersion && config.versionText != "" {
        metaParts := metaParts + ["Version: " + config.versionText];
      }
      if config.showDate {
        metaParts := metaParts + [dateText];
      }
      if org.Some? && "title" in org.value && org.value["title"] != "" {
        metaParts := metaParts + ["Published by " + org.value["title"]];
      }
    }

    /** The story, title and author `build_pdf` gives to the document
        template; the table of contents also fills `toc_entries`. */
    method BuildStory(fetch: Fetch, space: Dict, pages: seq<PageNode>, org: Option<Dict>,
                      dateText: string, decode: Decoder)
      returns (story: seq<Element>, title: string, author: Option<string>)
      modifies this`tocEntries
      ensures story == StoryElements(config, space, org, dateText, decode, fetch, pages)
      ensures title == CoverTitleText(config, space) && author == DocAuthor(org)
      ensures tocEntries == old(tocEntries) + (if config.includeToc then TocRecords(pages, 0, config.tocDepth) else [])
    {
      title := CoverTitleText(config, space);
      author := DocAuthor(org);
      var cover: seq<Element> := [];
      if config.includeCover {
        cover := CreateCoverPage(space, org, dateText, decode);
      }
      var toc: seq<Element> := [];
      if config.includeToc {
        toc := CreateToc(pages, 0);
      }
      var content := ProcessPages(fetch, pages, 0);
      story := cover + toc + content;
    }

    /** `add_header_footer`, called by ReportLab for page number `page`. */
    method AddHeaderFooter(canvas: Canvas, space: Dict, page: nat)
      requires Valid()
      modifies canvas
      ensures canvas.commands == old(canvas.commands) + PageCommands(config, space, page)
    {
      ghost var before := canvas.commands;
      ghost var header := HeaderCommands(config, space, pageSize);
      ghost var footer := FooterCommands(config, pageSize, page);
      canvas.SaveState();
      AddHeader(canvas, space);
      AddFooter(canvas, page);
      canvas.RestoreState();
      assert canvas.commands == before + [DrawCmd.SaveState] + header + footer + [DrawCmd.RestoreState];
      CommandsAssoc(before, [DrawCmd.SaveState], header, footer, [DrawCmd.RestoreState]);
    }

    /** The header part of `add_header_footer`. */
    method AddHeader(canvas: Canvas, space: Dict)
      modifies canvas
      ensures canvas.commands == old(canvas.commands) + HeaderCommands(config, space, pageSize)
    {
      if config.includeHeader {
        var headerText := if config.headerText != "" then config.headerText else Get(space, "title", "");
        canvas.SetFont("Helvetica", 9);
        canvas.SetFillColor("#888888");
        canvas.DrawString(Margin, pageSize.height - 50.0, headerText);
        canvas.Line(Margin, pageSize.height - 55.0, pageSize.width - Margin, pageSize.height - 55.0);
      }
    }

    /** The footer part of `add_header_footer`. */
    method AddFooter(canvas: Canvas, page: nat)
      modifies canvas
      ensures canvas.commands == old(canvas.commands) + FooterCommands(config, pageSize, page)
    {
      if config.includeFooter || config.showPageNumbers {
        canvas.SetFont("Helvetica", 9);
        canvas.SetFillColor("#888888");
        canvas.Line(Margin, 50.0, pageSize.width - Margin, 50.0);
        if config.includeFooter && config.footerText != "" {
          canvas.DrawString(Margin, 35.0, config.footerText);
        }
        if config.showPageNumbers {
          canvas.DrawRightString(pageSize.width - Margin, 35.0, PageLabel(page));
        }
      }
    }
  }

  lemma CommandsAssoc(a: seq<DrawCmd>, b: seq<DrawCmd>, c: seq<DrawCmd>, d: seq<DrawCmd>, e: seq<DrawCmd>)
    ensures a + b + c + d + e == a + (b + c + d + e)
  {
  }
}
