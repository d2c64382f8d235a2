/** What `add_header_footer` draws on every page: a header line of text and
    a rule, a footer rule, footer text and a right-aligned page number, each
    under its own switch. ReportLab's running page number `doc.page` is the
    parameter `page`. */
module PageDecor {
  import opened Wrappers
  import opened Model
  import opened Text
  import opened Styles

  /** One inch: the left and right margin of header and footer. */
  const Margin: real := 72.0

  /** `config.header_text or space_info.get('title', '')`. */
  function HeaderText(cfg: Config, space: Dict): string {
    if cfg.headerText != "" then cfg.headerText else Get(space, "title", "")
  }

  /** `"Page " + str(n)`. */
  function PageLabel(n: nat): string {
    "Page " + NatToString(n)
  }

  function HeaderCommands(cfg: Config, space: Dict, size: PageSize): seq<DrawCmd> {
    if cfg.includeHeader then
      [ SetFont("Helvetica", 9), SetFillColor("#888888"),
        DrawString(Margin, size.height - 50.0, HeaderText(cfg, space)),
        Line(Margin, size.height - 55.0, size.width - Margin, size.height - 55.0) ]
    else []
  }

  function FooterCommands(cfg: Config, size: PageSize, page: nat): seq<DrawCmd> {
    if cfg.includeFooter || cfg.showPageNumbers then
      [ SetFont("Helvetica", 9), SetFillColor("#888888"),
        Line(Margin, 50.0, size.width - Margin, 50.0) ]
      + (if cfg.includeFooter && cfg.footerText != "" then [DrawString(Margin, 35.0, cfg.footerText)] else [])
      + (if cfg.showPageNumbers then [DrawRightString(size.width - Margin, 35.0, PageLabel(page))] else [])
    else []
  }

  /** The canvas calls made for page number `page`, between saving and restoring the canvas state. */
  function PageCommands(cfg: Config, space: Dict, page: nat): seq<DrawCmd> {
    var size := PageSizeFor(cfg.pageSize);
    [SaveState] + HeaderCommands(cfg, space, size) + FooterCommands(cfg, size, page) + [RestoreState]
  }

  /** The calls are bracketed by one save and one restore of the canvas state. */
  lemma StateBracketed(cfg: Config, space: Dict, page: nat)
    ensures var c := PageCommands(cfg, space, page);
      |c| >= 2 && c[0] == SaveState && c[|c| - 1] == RestoreState
      && (forall i :: 0 < i < |c| - 1 ==> c[i] != SaveState && c[i] != RestoreState)
  {
  }

  /** The header text and its rule are drawn exactly when the header is on. */
  lemma HeaderDrawnIff(cfg: Config, space: Dict, page: nat)
    ensures var c := PageCommands(cfg, space, page);
      var size := PageSizeFor(cfg.pageSize);
      && (DrawString(Margin, size.height - 50.0, HeaderText(cfg, space)) in c <==> cfg.includeHeader)
      && (Line(Margin, size.height - 55.0, size.width - Margin, size.height - 55.0) in c <==> cfg.includeHeader)
  {
    var size := PageSizeFor(cfg.pageSize);
    assert size.height > 85.0;
  }

  /** The footer rule is drawn exactly when the footer or the page numbers are on. */
  lemma FooterRuleIff(cfg: Config, space: Dict, page: nat)
    ensures var c := PageCommands(cfg, space, page);
      var size := PageSizeFor(cfg.pageSize);
      Line(Margin, 50.0, size.width - Margin, 50.0) in c <==> cfg.includeFooter || cfg.showPageNumbers
  {
    var size := PageSizeFor(cfg.pageSize);
    assert size.height > 105.0;
  }

  /** Footer text is drawn exactly when the footer is on and its text is not empty. */
  lemma FooterTextIff(cfg: Config, space: Dict, page: nat)
    ensures var c := PageCommands(cfg, space, page);
      DrawString(Margin, 35.0, cfg.footerText) in c <==> cfg.includeFooter && cfg.footerText != ""
  {
    var size := PageSizeFor(cfg.pageSize);
    assert size.height > 85.0;
  }

  /** A right-aligned label is drawn exactly when page numbers are on, and it
      is `Page n` for the page being decorated. */
  lemma PageNumberIff(cfg: Config, space: Dict, page: nat)
    ensures var c := PageCommands(cfg, space, page);
      var size := PageSizeFor(cfg.pageSize);
      && (DrawRightString(size.width - Margin, 35.0, PageLabel(page)) in c <==> cfg.showPageNumbers)
      && (forall x :: x in c && x.DrawRightString? ==> x.text == PageLabel(page))
  {
  }

  /** Two pages are decorated alike exactly when page numbers are off or
      they are the same page: the number is the only thing that varies. */
  lemma PagesDifferOnlyByNumber(cfg: Config, space: Dict, m: nat, n: nat)
    ensures PageCommands(cfg, space, m) == PageCommands(cfg, space, n) <==> (m == n || !cfg.showPageNumbers)
  {
    var size := PageSizeFor(cfg.pageSize);
    var cm, cn := PageCommands(cfg, space, m), PageCommands(cfg, space, n);
    if cfg.showPageNumbers && cm == cn {
      assert DrawRightString(size.width - Margin, 35.0, PageLabel(m)) in cn by {
        PageNumberIff(cfg, space, m);
      }
      PageNumberIff(cfg, space, n);
      assert PageLabel(m) == PageLabel(n);
      assert NatToString(m) == PageLabel(m)[5..];
      assert NatToString(n) == PageLabel(n)[5..];
      NatToStringInjective(m, n);
    }
  }
}
