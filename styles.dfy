/** The page size and the paragraph style sheet built by `PDFBuilder.__init__`
    and `_create_styles`. Only the attributes that differ between styles are
    kept: font, size, leading, left indent and text colour. */
module Styles {
  import opened Wrappers
  import opened Model

  datatype PageSize = PageSize(width: real, height: real)

  /** ReportLab's `letter`: 8.5 by 11 inches. */
  const LetterSize := PageSize(612.0, 792.0)

  /** ReportLab's `A4`: 210 by 297 millimetres, in points. */
  const A4Size := PageSize(75600.0 / 127.0, 106920.0 / 127.0)

  /** `letter if config.page_size == "Letter" else A4`. */
  function PageSizeFor(name: string): (r: PageSize)
    ensures r == LetterSize <==> name == "Letter"
    ensures r == A4Size <==> name != "Letter"
    ensures 0.0 < r.width < r.height
  {
    if name == "Letter" then LetterSize else A4Size
  }

  datatype Color = Black | Hex(code: string)

  datatype ParagraphStyle = ParagraphStyle(
    fontName: string,
    fontSize: int,
    leading: int,
    leftIndent: int,
    textColor: Color)

  /** The font sizes of `CustomHeading1` to `CustomHeading6`. */
  const HeadingSizes: seq<int> := [24, 20, 16, 14, 12, 11]

  /** The style sheet entry named by `id`; `None` where no style of that name exists. */
  function StyleOf(cfg: Config, id: StyleId): (r: Option<ParagraphStyle>)
    ensures id.TocEntry? ==> (r.Some? <==> 1 <= id.level <= 3)
    ensures id.CustomHeading? ==> (r.Some? <==> 1 <= id.level <= 6)
    ensures !id.TocEntry? && !id.CustomHeading? ==> r.Some?
  {
    var primary := Hex(cfg.primaryColor);
    var base := cfg.baseFontSize;
    match id
    case CoverTitle => Some(ParagraphStyle("Helvetica-Bold", 36, 44, 0, primary))
    case CoverSubtitle => Some(ParagraphStyle("Helvetica", 18, 24, 0, Hex("#666666")))
    case CoverMeta => Some(ParagraphStyle("Helvetica", 12, 16, 0, Hex("#888888")))
    case TocHeading => Some(ParagraphStyle("Helvetica-Bold", 24, 30, 0, primary))
    case TocEntry(level) =>
      if 1 <= level <= 3 then
        Some(ParagraphStyle(
          if level == 1 then "Helvetica-Bold" else "Helvetica",
          12 - (level - 1),
          18 - (level - 1) * 2,
          (level - 1) * 20,
          if level == 1 then primary else Black))
      else None
    case CustomHeading(level) =>
      if 1 <= level <= 6 then
        var size := HeadingSizes[level - 1];
        Some(ParagraphStyle("Helvetica-Bold", size, size + 6, 0, if level <= 2 then primary else Black))
      else None
    case CustomBody => Some(ParagraphStyle("Helvetica", base, base + 5, 0, Black))
    case CodeBlock => Some(ParagraphStyle("Courier", 9, 12, 10, Black))
    case InlineCode => Some(ParagraphStyle("Courier", 10, 12, 0, Black))
    case BlockQuote => Some(ParagraphStyle("Helvetica-Oblique", base, base + 4, 20, Hex("#555555")))
    case Hint => Some(ParagraphStyle("Helvetica", base, base + 4, 15, Black))
    case PageDescription => Some(ParagraphStyle("Helvetica-Oblique", base, base + 5, 0, Hex("#666666")))
  }

  /** A deeper TOC level is set smaller, tighter and further indented. */
  lemma TocStylesGraded(cfg: Config, a: int, b: int)
    requires 1 <= a < b <= 3
    ensures StyleOf(cfg, TocEntry(a)).Some? && StyleOf(cfg, TocEntry(b)).Some?
    ensures StyleOf(cfg, TocEntry(a)).value.fontSize > StyleOf(cfg, TocEntry(b)).value.fontSize
    ensures StyleOf(cfg, TocEntry(a)).value.leading > StyleOf(cfg, TocEntry(b)).value.leading
    ensures StyleOf(cfg, TocEntry(a)).value.leftIndent < StyleOf(cfg, TocEntry(b)).value.leftIndent
  {
  }

  /** A deeper heading is never set larger, and its leading is its size plus six. */
  lemma HeadingStylesGraded(cfg: Config, a: int, b: int)
    requires 1 <= a < b <= 6
    ensures StyleOf(cfg, CustomHeading(a)).Some? && StyleOf(cfg, CustomHeading(b)).Some?
    ensures StyleOf(cfg, CustomHeading(a)).value.fontSize > StyleOf(cfg, CustomHeading(b)).value.fontSize
    ensures StyleOf(cfg, CustomHeading(a)).value.leading == StyleOf(cfg, CustomHeading(a)).value.fontSize + 6
    ensures StyleOf(cfg, CustomHeading(b)).value.leading == StyleOf(cfg, CustomHeading(b)).value.fontSize + 6
  {
  }
}
