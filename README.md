# GitBook PDF export: the `PDFBuilder` core in Dafny

This project models `PDFBuilder`, the part of the GitBook-to-PDF exporter
that turns a GitBook space into a ReportLab story (the list of flowables
that ReportLab lays out into pages) and decorates each page. It covers:

- the paragraph style sheet (`_create_styles`);
- the cover page (`_create_cover_page`): the logo, sized as the code sizes
  it, which can overflow its height limit (see Findings); the cover image,
  sized to fit its box; the title, subtitle and meta lines;
- the table of contents and the bookmark records it collects (`_create_toc`);
- the walk over the page tree that emits each page's heading, description and
  converted markdown (`_process_pages`);
- the HTML-to-flowable conversion (`_markdown_to_elements`,
  `_process_html_element`): headings, paragraphs, escaped code blocks, block
  quotes, lists, tables, rules, images and containers;
- the inline markup rewriting (`_process_inline_elements`);
- the document metadata, the story's assembly order and the per-page
  header/footer callback (`build_pdf`, `add_header_footer`).

Modules:

- `Wrappers`: `Option`.
- `Text`: Python string helpers (`strip`, `replace`, `lower`, `''.join`,
  decimal rendering), each with its defining property.
- `Model`: the data the builder reads and emits:
  - `Config`, for `PDFConfig`;
  - `PageNode`, for a GitBook page dictionary;
  - `Html`, for a parsed BeautifulSoup tree;
  - `Element`, for a flowable;
  - `DrawCmd`, for a canvas call;
  - `Count`, a counting function over a story.
- `Styles`: the page sizes and the style sheet as a total function
  `StyleOf`, where `None` stands for a style name absent from the sheet.
- `Toc`, `Markup`, `Content`, `Cover`, `PageDecor` and `Story`: the
  specification functions for each method of `PDFBuilder`, with the lemmas
  about them.
- `Builder`: the `PdfBuilder` class (fields `config`, `pageSize`,
  `tocEntries` and `currentPageNum`, as `__init__` sets them) and a
  recording `Canvas`. Its methods follow the source loop by loop and
  append to `tocEntries` in place. Each one is proved to return exactly
  what the corresponding specification function describes.

Inputs the builder gets from outside are parameters:

- `fetch`: the GitBook page request followed by markdown parsing. It
  maps a page id to the parsed HTML forest, or to `None` when the request
  or conversion raised.
- `decode`: the image decoder. It maps image bytes to pixel dimensions,
  or to `None` when decoding raised.
- `dateText`: the formatted current date.
- `page`: the page number ReportLab passes to the page callback.

Some behaviour of the code worth stating outright:

- The table of contents does not look at the `hidden` flag at all
  (`Toc.TocIgnoresHidden`). Only the content walk skips hidden pages.
- A TOC entry's level is `min(depth + 1, 3)`, one-based. The walk stops
  recursing at `toc_depth`; the depth itself is not clamped.
- TOC entries carry no page numbers. ReportLab paginates the story, and
  the header and footer are drawn by a per-page callback, not stamped
  onto pages afterwards.

## Model

| member | source | states |
|---|---|---|
| Text.LStrip | app.py:492 | the result is a suffix of the input, starts with a non-space (or is empty), and everything dropped is whitespace |
| Text.RStrip | app.py:492 | the result is a prefix of the input, ends with a non-space (or is empty), and everything dropped is whitespace |
| Text.Strip | app.py:521 | the result is empty or begins and ends with a non-space, and is no longer than the input |
| Text.LStripDropsLeading | app.py:521 | `lstrip` drops exactly the leading run of whitespace |
| Text.StripTrimmed | app.py:521 | the result is the slice of the input that starts right after its leading whitespace and is followed only by whitespace, with no whitespace at either end |
| Text.TrimmedUnique | app.py:521 | only one string is the trimmed form of a given text, so `StripTrimmed` determines `strip` completely |
| Text.StripFixedPoint | app.py:521 | stripping leaves a text unchanged exactly when it is empty or neither starts nor ends with whitespace |
| Text.ReplaceChar | app.py:522-523 | after replacing `c` by a text without `c`, no `c` is left; a text without `c` is unchanged |
| Text.ReplaceSingle | app.py:522-523 | replacing in a one-character text yields the replacement exactly when that character is `c`, else the character |
| Text.ReplaceCharConcat | app.py:522-523 | replacement distributes over concatenation |
| Text.Lower | app.py:497 | the result has the input's length and no capital letter left; each capital becomes its small letter (code point + 32) and every other character is unchanged |
| Text.LowerIdempotent | app.py:497 | lower-casing a lower-cased text changes nothing |
| Text.ConcatAppend | app.py:645 | joining parts with one more part appended is the old join followed by that part |
| Text.NatToString | app.py:765 | the decimal rendering is a non-empty string of digits with no leading zero except for 0 |
| Text.ParseNatToString | app.py:765 | reading the decimal rendering back gives the number (round trip) |
| Text.NatToStringInjective | app.py:765 | two numbers render alike exactly when they are equal |
| Styles.PageSizeFor | app.py:205 | the page size is Letter exactly when the configured name is "Letter", A4 otherwise, and is taller than wide |
| Styles.StyleOf | app.py:210-347 | `TOCEntry<n>` exists exactly for 1 <= n <= 3, `CustomHeading<n>` exactly for 1 <= n <= 6, and every other named style exists |
| Styles.TocStylesGraded | app.py:259-269 | a deeper TOC level has a smaller font, a smaller leading and a larger indent |
| Styles.HeadingStylesGraded | app.py:272-284 | a deeper heading level has a smaller font, and each heading's leading is its font size plus 6 |
| Toc.TocLevel | app.py:440 | the entry level is depth + 1 for depths 0 and 1 and 3 from depth 2 on |
| Toc.EntryParagraphs | app.py:451-452 | one entry paragraph per collected record |
| Toc.EntryParagraphsAt | app.py:451-452 | entry paragraph i holds record i's title in the `TOCEntry` style of record i's level |
| Toc.TocRecordsConcat | app.py:435-457 | the records of two sibling runs are the records of each, in order |
| Toc.TocSkipsLink | app.py:436-437 | a link page contributes nothing, and removing it leaves the records unchanged |
| Toc.TocBeyondDepthEmpty | app.py:439 | at or below `toc_depth` nothing is recorded |
| Toc.TocLevelsInRange | app.py:440 | every recorded level lies between the starting level and 3 |
| Toc.TocIgnoresHidden | app.py:435-457 | setting every page's `hidden` flag to any value does not change the records |
| Toc.TocStylesExist | app.py:451 | every paragraph of the TOC names an existing style, so the `TOCEntry<level>` lookup never fails |
| Toc.RecordsOf | app.py:440-449 | one record per visited page, in visiting order: record i holds page i's title (or "Untitled"), its id and the level `min(depth + 1, 3)` of its depth |
| Toc.RecordsOfConcat | app.py:444-449 | the records of two visit lists are the records of each, in order |
| Toc.PreOrderConcat | app.py:435-457 | the pre-order of two sibling runs is the pre-order of each, in order |
| Toc.TocIsPreOrderOfPruned | app.py:428-462 | the TOC records are the pre-order of the page tree pruned of links and of pages at or below `toc_depth` (an independent reference definition) |
| Toc.PrunedVisitsListable | app.py:435-439 | every page in that pre-order is not a link and lies between the start depth and `toc_depth` |
| Markup.FindAll | app.py:557 | every node found carries one of the requested tag names |
| Markup.NamedInConcat | app.py:557 | filtering by tag name distributes over concatenation, keeping the order |
| Markup.FindAllInDocumentOrder | app.py:557 | the nodes found are exactly the descendants that carry a requested name, in document (pre-)order: sound and complete |
| Markup.ChildrenNamed | app.py:535 | a node is found exactly when it is a direct child carrying the requested tag name |
| Markup.InlineChildrenConcat | app.py:623-645 | the inline text of two child runs is the text of each, joined in order |
| Markup.InlineChildrenStep | app.py:624-643 | one more child adds exactly that child's rewritten text |
| Markup.BreakDropsContent | app.py:640-641 | a `br` child becomes `<br/>` whatever it contains, and its neighbours are unaffected |
| Markup.PlainInlineIsText | app.py:623-645 | for children without formatting tags, the rewriting is the plain concatenated text |
| Markup.EscapeCharIsChain | app.py:522-523 | on one character, the three chained replacements equal the per-character escape |
| Markup.ChainIsPerChar | app.py:522-523 | on any text, the three chained replacements equal escaping character by character |
| Markup.EscapedHasNoNewline | app.py:523 | an escaped code block holds no newline |
| Markup.EscapeKeepsCleanText | app.py:521-523 | stripped code without `<`, `>` or newline is emitted unchanged |
| Markup.UnescapeStep | app.py:522-523 | for any character other than `&`, undoing the escape of that character followed by more text gives back that character first |
| Markup.UnescapeEscapeEach | app.py:522-523 | undoing the escape of a text without `&` gives back the text (round trip) |
| Markup.EscapeRoundTrip | app.py:521-523 | for code without `&`, undoing the escape gives back the stripped code |
| Markup.EscapeLiteralEntity | app.py:522 | code holding the literal text `&lt;` is emitted unchanged |
| Markup.EscapeLessThan | app.py:522 | code `<` is emitted as `&lt;` |
| Markup.EscapeNotInjective | app.py:522 | two different code texts (`&lt;` and `<`) are emitted alike, so `&` is where the round trip ends |
| Markup.BodyRowsAppend | app.py:563-567 | one more row adds exactly that row's output: its cells if kept, nothing otherwise |
| Markup.BodyRowsStep | app.py:563-567 | the row loop's step: the first i+1 rows give the first i rows' output followed by row i's |
| Markup.BodyRowsFiltered | app.py:563-567 | there are at most as many body rows as `tr` rows, and each comes from a kept row |
| Markup.TableHeaderFirst | app.py:557-567 | with header cells present the first table row is their text; every other row comes from a `tr` with cells that is not the header row again |
| Markup.HeadingTagNames | app.py:500 | a lowered tag is a heading tag exactly when it is one of `h1`..`h6` |
| Markup.HeadingTagLevel | app.py:501 | the level is the digit of the tag: `h<l>` gives l, between 1 and 6 |
| Markup.ForestBlocksAppend | app.py:480-482 | one more top-level node adds exactly that node's flowables |
| Markup.ForestBlocksStep | app.py:480-482 | the loop's step: the first i+1 nodes give the first i nodes' flowables followed by node i's |
| Markup.TextTagBlocksShaped | app.py:500-530 | headings, paragraphs, code and quotes yield no page break and no image, and name existing styles |
| Markup.OtherTagBlocksShaped | app.py:533-611 | lists, tables, rules, images, containers and unknown tags yield no page break and no image, and name existing styles |
| Markup.TagBlocksShaped | app.py:496-611 | every tag branch yields no page break and no image, and names existing styles |
| Markup.BlocksShaped | app.py:486-613 | converting any node yields no page break and no image, and names existing styles |
| Markup.ForestBlocksShaped | app.py:464-484 | the same holds for a whole converted markdown document |
| Content.HeadingLevel | app.py:664 | the heading level is depth + 1 below depth 5 and 6 from depth 5 on, so `CustomHeading<level>` always exists |
| Content.ContentConcat | app.py:651-701 | the content of two sibling runs is the content of each, in order |
| Content.ContentStep | app.py:651-701 | the loop's step: the first i+1 pages give the first i pages' content followed by page i's |
| Content.ContentSkipsDropped | app.py:655-660 | a link page, or a hidden page when hidden pages are excluded, contributes nothing with its whole subtree |
| Content.HiddenIrrelevantWhenIncluded | app.py:659 | with hidden pages included, the `hidden` flags do not change the content |
| Content.PageBlockIgnoresHidden | app.py:662-696 | a page's own block does not depend on its `hidden` flag or its children |
| Content.NodeIgnoresHidden | app.py:655-701 | with hidden pages included, a page renders the same whatever its `hidden` flag, given its subtree renders the same |
| Content.NestedContentShaped | app.py:651-701 | below the top level the content holds no break of either kind and no image, and names existing styles |
| Content.FetchedShaped | app.py:685-692 | a page's fetched content holds no break and no image, and names existing styles |
| Content.KeptPages | app.py:651-660 | a page is kept at one level exactly when it is among the pages given, is not a link, and is not hidden while hidden pages are excluded |
| Content.KeptPagesConcat | app.py:651-660 | keeping pages distributes over concatenation, so the kept pages stay in their forest order |
| Content.PageBodyShaped | app.py:671-696 | a page's heading, description, content and spacer hold no break, and name existing styles |
| Content.TopPageBlockShape | app.py:668-696 | a top-level page's own block holds exactly one `CondPageBreak` and no `PageBreak`, with existing styles |
| Content.TopNodeShape | app.py:651-701 | a top-level page with its subtree holds one `CondPageBreak` if kept and none otherwise, and no `PageBreak` |
| Content.TopLevelBreaks | app.py:647-703 | the whole body holds one `CondPageBreak` per kept top-level page, no `PageBreak`, and only existing styles |
| Cover.TallLogo | app.py:366-368 | a logo no wider than tall keeps its aspect ratio, fits 216x108 pt and is not enlarged |
| Cover.WideLogoAsWritten | app.py:363-365 | a wider-than-tall logo, sized as the code does, keeps its aspect ratio and is at most 216 pt wide, but its height is not bounded by 108 pt |
| Cover.WideLogo | app.py:363-368 | a wider-than-tall logo, with the width also capped by the height limit, keeps its aspect ratio, fits 216x108 pt and is not enlarged |
| Cover.LogoFitAsWritten | app.py:356-368 | the logo size as the code computes it keeps the aspect ratio and the 216 pt width limit only |
| Cover.LogoAsWrittenOverflows | app.py:363-365 | a 300x200 logo comes out 216x144 pt, taller than the 108 pt limit |
| Cover.LogoFit | app.py:356-368 | the logo size keeps the aspect ratio, fits 216x108 pt and never enlarges the image |
| Cover.LogoFitAgrees | app.py:363-368 | wherever the code's size respects the height limit, the corrected size is the same |
| Cover.CoverLogoOverflows | app.py:356-373 | on the cover, a 300x200 logo is drawn 216x144 pt, taller than the 108 pt limit |
| Cover.CoverLogoAgrees | app.py:356-373 | on the cover, a logo whose size as written fits the height limit is drawn at the corrected size |
| Cover.CoverImageFit | app.py:381-390 | the cover image keeps its aspect ratio, fits 360x216 pt and touches the box on at least one side |
| Cover.CoverTitleText | app.py:400 | the title is the configured cover title, else the space title, else "Documentation" |
| Cover.MetaLines | app.py:412-420 | a version line if enabled and non-empty, then the date if enabled, then "Published by" + organisation title if there is one, in that order |
| Cover.ImageBlockShape | app.py:356-398 | the logo and cover-image parts hold only images and 0.5 inch spacers |
| Cover.CoverCount | app.py:348-426 | counting any kind of element that is neither an image nor a cover spacer over the cover counts the title, subtitle, meta and page break parts only |
| Cover.CoverMembers | app.py:348-426 | every cover element is a spacer, an image, the page break, the title, or part of the subtitle or meta blocks |
| Cover.CoverEndsWithPageBreak | app.py:353-425 | the cover starts with a 2 inch spacer, ends with its only `PageBreak`, and has no `CondPageBreak` |
| Cover.CoverTitleOnce | app.py:400-401 | the cover holds exactly one title paragraph, with the chosen title |
| Cover.CoverSubtitleRule | app.py:404-407 | there is one subtitle exactly when a subtitle is configured or the space has a non-empty description, and its text is the configured one first |
| Cover.CoverMetaRule | app.py:422-423 | there is one meta paragraph exactly when version, date or publisher is shown |
| PageDecor.StateBracketed | app.py:741-768 | each page's calls start with the one `saveState` and end with the one `restoreState` |
| PageDecor.HeaderDrawnIff | app.py:744-749 | the header text and the header rule are drawn exactly when the header is on |
| PageDecor.FooterRuleIff | app.py:752-757 | the footer rule is drawn exactly when the footer or page numbers are on |
| PageDecor.FooterTextIff | app.py:760-761 | the footer text is drawn exactly when the footer is on and its text is non-empty |
| PageDecor.PageNumberIff | app.py:764-766 | "Page n" is drawn right-aligned exactly when page numbers are on, and it is the only right-aligned text |
| PageDecor.PagesDifferOnlyByNumber | app.py:740-768 | two pages get the same calls exactly when they are the same page or page numbers are off |
| Story.AuthorIsPublisher | app.py:719 | with an organisation title, the document author is that title, and the cover's last meta line names it |
| Story.NoOrganisationDefaultAuthor | app.py:719 | without organisation data the author is "GitBook" and the cover has no publisher line |
| Story.TocBreaks | app.py:432-460 | the TOC starts with its title, ends with its only `PageBreak`, and has no `CondPageBreak` |
| Story.FrontMatterBreaks | app.py:725-733 | cover and TOC hold one `PageBreak` each when enabled, and no `CondPageBreak` |
| Story.StoryBreaks | app.py:722-737 | the story holds one `PageBreak` per enabled front part and one `CondPageBreak` per kept top-level page |
| Story.HardBreaksFirst | app.py:722-737 | every `PageBreak` comes before every `CondPageBreak`: front matter precedes the content |
| Story.HardBeforeConditional | app.py:722-737 | in a story made of a part without `CondPageBreak` followed by a part without `PageBreak`, every `PageBreak` precedes every `CondPageBreak` |
| Builder.Canvas.SaveState | app.py:741 | records one `saveState` call after the earlier ones |
| Builder.Canvas.RestoreState | app.py:768 | records one `restoreState` call after the earlier ones |
| Builder.Canvas.SetFont | app.py:746 | records one `setFont` call with its arguments |
| Builder.Canvas.SetFillColor | app.py:747 | records one `setFillColor` call with its argument |
| Builder.Canvas.DrawString | app.py:748 | records one `drawString` call with its position and text |
| Builder.Canvas.DrawRightString | app.py:766 | records one `drawRightString` call with its position and text |
| Builder.Canvas.Line | app.py:749 | records one `line` call with its end points |
| Builder.PdfBuilder.constructor | app.py:203-208 | keeps the configuration, picks Letter or A4 from it, and starts with no TOC entries and page 1 |
| Builder.PdfBuilder.CreateToc | app.py:428-462 | returns the TOC flowables and appends the TOC records to `tocEntries`, in visiting order |
| Builder.PdfBuilder.TocPage | app.py:435-457 | handles one page of the TOC loop: returns the entry paragraphs of the page and its listed subtree and appends their records |
| Builder.PdfBuilder.ProcessInline | app.py:615-645 | rewrites a missing element, a string or a tag as the inline specification says |
| Builder.PdfBuilder.InlineTag | app.py:623-645 | the parts loop yields the inline rewriting of the tag's children |
| Builder.PdfBuilder.ProcessEach | app.py:559-566 | rewrites a list of cells, one text per cell |
| Builder.PdfBuilder.TableRows | app.py:553-567 | the table data is the header row, when there is one, followed by the kept body rows |
| Builder.PdfBuilder.KeptRows | app.py:563-567 | the row loop keeps exactly the rows the filter keeps, in order |
| Builder.PdfBuilder.ProcessHtmlElement | app.py:486-613 | converts one node into exactly its specified flowables, containers by their loop over children |
| Builder.PdfBuilder.ProcessLeafTag | app.py:496-605 | converts one non-container tag into its specified flowables |
| Builder.PdfBuilder.MarkdownToElements | app.py:464-484 | converts a parsed document into the flowables of its nodes, in order |
| Builder.PdfBuilder.ProcessPages | app.py:647-703 | the page walk yields exactly the specified content, children after their parent |
| Builder.PdfBuilder.PageBlockOf | app.py:662-696 | one kept page's break, heading, description, content and spacer |
| Builder.PdfBuilder.FetchPage | app.py:684-694 | a document page with an id contributes its converted markdown; a failed fetch or any other page contributes nothing |
| Builder.PdfBuilder.CreateCoverPage | app.py:348-426 | builds exactly the specified cover |
| Builder.PdfBuilder.CoverMetaParts | app.py:412-420 | builds exactly the specified meta lines |
| Builder.PdfBuilder.BuildStory | app.py:705-737 | returns the document title and author and the story (cover, TOC, content), and records TOC entries only when the TOC is on |
| Builder.PdfBuilder.AddHeaderFooter | app.py:740-768 | appends exactly the specified calls for the page to the canvas |
| Builder.PdfBuilder.AddHeader | app.py:744-749 | appends exactly the header calls |
| Builder.PdfBuilder.AddFooter | app.py:752-766 | appends exactly the footer calls |

## Left out

- The Streamlit user interface, `main`, and the `GitBookAPI` HTTP client are not modelled. Page content comes in through the `fetch` parameter, with `None` for a request or conversion that raised.
- Markdown-to-HTML conversion and BeautifulSoup parsing are not modelled. A page's content is given as an already parsed `Html` forest.
- ReportLab's layout, pagination and PDF serialisation are not modelled. The story is the model's result; `SimpleDocTemplate`'s margins and `doc.build` are left out. The page number the callback receives is a parameter.
- Building a flowable is assumed to succeed. ReportLab parses a `Paragraph`'s markup when the paragraph is built and raises on malformed markup, but the builder passes several texts to it unescaped: text nodes (app.py:492-494), heading text (app.py:503-504) and inline text (app.py:625-626, 643), as well as page titles, page descriptions, TOC entries and cover texts. The model does not capture two consequences of that. First, such text in a page's converted content makes the `try` at app.py:686-694 drop the whole content of the page, leaving its heading, its description (if shown) and its spacer, whereas `Content.FetchedBlocks` keeps the content. Second, such text in a page title (app.py:671), a page description (app.py:682), a TOC entry (app.py:452) or a cover paragraph (app.py:401-423) is outside any `try`, so `build_pdf` raises, whereas the model still returns a story.
- PIL image decoding is the `decode` parameter. A zero pixel height is treated like a decoding failure, because the code's division by zero raises and the `except` branch skips the image.
- The clock and `strftime` are not modelled. The formatted date is the `dateText` parameter, so `date_format` is not interpreted.
- `st.warning` diagnostics are not modelled. The skipped-item behaviour of each `except` branch is.
- BeautifulSoup's kinds of string are not told apart: a comment is a `Text` node like any other string. `Markup.GetText` therefore includes comments, while `get_text()`, which the code uses for heading text (app.py:503) and code blocks (app.py:516-518), skips them; the inline path (app.py:625-626) and the text-node path (app.py:490-494) keep them in both. For `<h1>Intro<!-- draft --></h1>` the code's heading is "Intro", whereas the model's includes " draft ".
- Lower-casing of tag names covers ASCII letters only. Unicode case mapping is not modelled.
- Point sizes are real numbers. Floating-point rounding is not modelled.
- Styles carry font, size, leading, left indent and colour only. Alignment, spacing, borders, backgrounds and `keepWithNext` are not modelled.
- `TableStyle` and the parameters of `ListFlowable`, `ListItem` and `HRFlowable` are reduced to the element kinds they produce.
- The `header_logo`, `footer_logo`, `font_family` and `code_syntax_highlighting` fields of `PDFConfig` are never read by the builder. They are not part of the model's `Config`.
- `current_page_num` is initialised but never read or updated by the builder; the model keeps the field with the same behaviour.
- `Cover.LogoFitAsWritten`: does not bound the height by 108 pt for wide logos, because the code does not (see Findings). The cover uses this size; `Cover.LogoFit` is the corrected size, and `Cover.CoverLogoAgrees` relates the two.
- `Markup.EscapeRoundTrip`: is stated only for code without `&`, because the code does not escape `&` and the escape is not invertible otherwise (`Markup.EscapeNotInjective`).

## Findings

| source | as written | input that shows it | evidently intended | confidence | as-written member | corrected member |
|---|---|---|---|---|---|---|
| app.py:363-368 | for a logo wider than tall, the width is capped at 3 inch (216 pt) and the height follows from the aspect ratio; the 1.5 inch (108 pt) `max_height` is never applied | a 300x200 px logo is placed at 216x144 pt, 36 pt taller than the limit | the logo fits the 216x108 pt box on both axes, keeping its aspect ratio | not executed | Cover.CoverLogoOverflows | Cover.LogoFit |
