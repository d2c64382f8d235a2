/** The story `build_pdf` hands to ReportLab: the cover, then the table of
    contents, then the body, each part under its own switch; and the title
    and author written into the document's metadata. */
module Story {
  import opened Wrappers
  import opened Model
  import opened Styles
  import opened Toc
  import opened Content
  import opened Cover

  /** The flowables of the whole document, in order. */
  function StoryElements(cfg: Config, space: Dict, org: Option<Dict>, dateText: string,
                         decode: Decoder, fetch: Fetch, pages: seq<PageNode>): seq<Element> {
    (if cfg.includeCover then CoverElements(cfg, space, org, dateText, decode) else [])
    + (if cfg.includeToc then TocElements(pages, 0, cfg.tocDepth) else [])
    + ContentElements(cfg, fetch, pages, 0)
  }

  /** `org_info.get('title') if org_info else 'GitBook'`: an absent or empty
      organisation gives the default author; one without a title gives none. */
  function DocAuthor(org: Option<Dict>): Option<string> {
    if org.None? || org.value == map[] then Some("GitBook")
    else if "title" in org.value then Some(org.value["title"])
    else None
  }

  /** When the cover names a publisher, the document's author is that publisher. */
  lemma AuthorIsPublisher(cfg: Config, org: Option<Dict>, dateText: string)
    requires HasPublisher(org)
    ensures DocAuthor(org) == Some(org.value["title"])
    ensures var lines := MetaLines(cfg, org, dateText);
      |lines| > 0 && lines[|lines| - 1] == "Published by " + DocAuthor(org).value
  {
  }

  /** Without an organisation the author is the default one, and the cover names no publisher. */
  lemma NoOrganisationDefaultAuthor(cfg: Config, dateText: string)
    ensures DocAuthor(None) == Some("GitBook")
    ensures |MetaLines(cfg, None, dateText)| == (if ShowsVersion(cfg) then 1 else 0) + (if cfg.showDate then 1 else 0)
  {
  }

  /** The table of contents at the top level opens with its heading, ends
      with its one page break and holds no conditional break. */
  lemma TocBreaks(pages: seq<PageNode>, tocDepth: int)
    ensures var t := TocElements(pages, 0, tocDepth);
      t[0] == TocTitle && t[|t| - 1] == PageBreak
      && Count(t, IsPageBreak) == 1 && Count(t, IsCondPageBreak) == 0
  {
    var entries := EntryParagraphs(TocRecords(pages, 0, tocDepth));
    assert forall x :: x in entries ==> x.Paragraph?;
    NoBreaksCounted(entries);
    NoBreaksCounted([TocTitle]);
    CountConcat([TocTitle] + entries, [PageBreak], IsPageBreak);
    CountConcat([TocTitle] + entries, [PageBreak], IsCondPageBreak);
    CountConcat([TocTitle], entries, IsPageBreak);
    CountConcat([TocTitle], entries, IsCondPageBreak);
  }

  /** The part of the story before the body. */
  function FrontMatter(cfg: Config, space: Dict, org: Option<Dict>, dateText: string,
                       decode: Decoder, pages: seq<PageNode>): seq<Element> {
    (if cfg.includeCover then CoverElements(cfg, space, org, dateText, decode) else [])
    + (if cfg.includeToc then TocElements(pages, 0, cfg.tocDepth) else [])
  }

  lemma FrontMatterBreaks(cfg: Config, space: Dict, org: Option<Dict>, dateText: string,
                          decode: Decoder, pages: seq<PageNode>)
    ensures var f := FrontMatter(cfg, space, org, dateText, decode, pages);
      Count(f, IsPageBreak) == (if cfg.includeCover then 1 else 0) + (if cfg.includeToc then 1 else 0)
      && Count(f, IsCondPageBreak) == 0
  {
    var cover := if cfg.includeCover then CoverElements(cfg, space, org, dateText, decode) else [];
    var toc := if cfg.includeToc then TocElements(pages, 0, cfg.tocDepth) else [];
    if cfg.includeCover { CoverEndsWithPageBreak(cfg, space, org, dateText, decode); }
    if cfg.includeToc { TocBreaks(pages, cfg.tocDepth); }
    CountConcat(cover, toc, IsPageBreak);
    CountConcat(cover, toc, IsCondPageBreak);
  }

  /** The story holds one hard page break for the cover and one for the
      table of contents when each is included, and one conditional break
      per kept top-level page. */
  lemma StoryBreaks(cfg: Config, space: Dict, org: Option<Dict>, dateText: string,
                    decode: Decoder, fetch: Fetch, pages: seq<PageNode>)
    ensures var s := StoryElements(cfg, space, org, dateText, decode, fetch, pages);
      Count(s, IsPageBreak) == (if cfg.includeCover then 1 else 0) + (if cfg.includeToc then 1 else 0)
      && Count(s, IsCondPageBreak) == |KeptPages(cfg, pages)|
  {
    var front := FrontMatter(cfg, space, org, dateText, decode, pages);
    var body := ContentElements(cfg, fetch, pages, 0);
    assert StoryElements(cfg, space, org, dateText, decode, fetch, pages) == front + body;
    FrontMatterBreaks(cfg, space, org, dateText, decode, pages);
    TopLevelBreaks(cfg, fetch, pages);
    CountConcat(front, body, IsPageBreak);
    CountConcat(front, body, IsCondPageBreak);
  }

  /** Every hard page break (ending the cover or the table of contents)
      comes before every conditional break (opening a top-level page). */
  lemma HardBreaksFirst(cfg: Config, space: Dict, org: Option<Dict>, dateText: string,
                        decode: Decoder, fetch: Fetch, pages: seq<PageNode>)
    ensures var s := StoryElements(cfg, space, org, dateText, decode, fetch, pages);
      forall i, j :: 0 <= i < |s| && 0 <= j < |s| && s[i].PageBreak? && s[j].CondPageBreak? ==> i < j
  {
    var front := FrontMatter(cfg, space, org, dateText, decode, pages);
    var body := ContentElements(cfg, fetch, pages, 0);
    assert StoryElements(cfg, space, org, dateText, decode, fetch, pages) == front + body;
    FrontMatterBreaks(cfg, space, org, dateText, decode, pages);
    TopLevelBreaks(cfg, fetch, pages);
    HardBeforeConditional(front, body);
  }

  /** Hard breaks only in `front` and conditional breaks only in `body`
      puts every hard break first. */
  lemma HardBeforeConditional(front: seq<Element>, body: seq<Element>)
    requires Count(front, IsCondPageBreak) == 0 && Count(body, IsPageBreak) == 0
    ensures var s := front + body;
      forall i, j :: 0 <= i < |s| && 0 <= j < |s| && s[i].PageBreak? && s[j].CondPageBreak? ==> i < j
  {
    var s := front + body;
    CountZero(front, IsCondPageBreak);
    CountZero(body, IsPageBreak);
    forall k | |front| <= k < |s|
      ensures !s[k].PageBreak?
    {
      assert s[k] == body[k - |front|];
    }
  }
}
