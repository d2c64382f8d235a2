/** The values the builder works on: its configuration record, the GitBook
    page tree and metadata dictionaries, the parsed HTML of a page, and the
    layout elements (ReportLab flowables) and canvas calls it produces. */
module Model {
  import opened Wrappers

  type Bytes = seq<bv8>

  /** A JSON object returned by the GitBook API, restricted to string values. */
  type Dict = map<string, string>

  /** `d.get(key, default)`. */
  function Get(d: Dict, key: string, default: string): string {
    if key in d then d[key] else default
  }

  /** `PDFConfig`. An empty byte string stands for an image that was not uploaded. */
  datatype Config = Config(
    includeCover: bool,
    coverTitle: string,
    coverSubtitle: string,
    coverLogo: Bytes,
    coverImage: Bytes,
    showVersion: bool,
    versionText: string,
    showDate: bool,
    includeToc: bool,
    tocDepth: int,
    includeHeader: bool,
    headerText: string,
    includeFooter: bool,
    footerText: string,
    showPageNumbers: bool,
    pageSize: string,
    primaryColor: string,
    baseFontSize: int,
    includeHiddenPages: bool,
    includePageDescriptions: bool)

  /** The defaults of `PDFConfig`, field by field. The builder itself
      never builds a default configuration; this records what a
      configuration holds when the user changes nothing. */
  function DefaultConfig(): Config {
    Config(true, "", "", [], [], true, "", true, true, 3, true, "", true, "", true,
           "Letter", "#0066cc", 11, false, true)
  }

  /** A `type` value other than the three the builder tests for. */
  type OtherKindName = s: string | s != "document" && s != "group" && s != "link"

  /** The `type` field of a page: `"document"`, `"group"`, `"link"`, or any
      other value, which the builder treats like a group (not fetched, not
      skipped). */
  datatype PageKind = Document | Group | Link | OtherKind(name: OtherKindName)

  /** A page of the GitBook page tree. `kind` and `title` are `None` when the
      API omitted the field; an empty `id` or `description` is a missing one. */
  datatype PageNode = PageNode(
    id: string,
    title: Option<string>,
    kind: Option<PageKind>,
    hidden: bool,
    description: string,
    children: seq<PageNode>)

  predicate IsLink(p: PageNode) {
    p.kind == Some(Link)
  }

  /** `page.get('type', 'document')`. */
  function KindOf(p: PageNode): PageKind {
    p.kind.GetOr(Document)
  }

  /** `page.get('title', 'Untitled')`. */
  function TitleOf(p: PageNode): string {
    p.title.GetOr("Untitled")
  }

  /** The same forest with every `hidden` flag set to `h`. */
  function WithHidden(pages: seq<PageNode>, h: bool): (r: seq<PageNode>)
    ensures |r| == |pages|
  {
    if pages == [] then []
    else [pages[0].(hidden := h, children := WithHidden(pages[0].children, h))]
         + WithHidden(pages[1..], h)
  }

  /** A node of the tree BeautifulSoup builds from a page's HTML: a string or
      a tag. All kinds of string (comments included) are one `Text` node. */
  datatype Html =
    | Text(text: string)
    | Tag(name: string, attrs: map<string, string>, children: seq<Html>)

  /** The named paragraph styles of the builder's style sheet. */
  datatype StyleId =
    | CoverTitle | CoverSubtitle | CoverMeta
    | TocHeading | TocEntry(level: int)
    | CustomHeading(level: int)
    | CustomBody | CodeBlock | InlineCode | BlockQuote | Hint
    | PageDescription

  datatype ImageSlot = CoverLogo | CoverImage

  /** ReportLab flowables. Lengths are in points; `Spacer(g)` is `Spacer(1, g)`; an image is `imageWidth` by `imageHeight` points. */
  datatype Element =
    | Paragraph(text: string, style: StyleId)
    | Preformatted(text: string, style: StyleId)
    | Spacer(gap: int)
    | PageBreak
    | CondPageBreak(gap: int)
    | ListOf(items: seq<string>, numbered: bool)
    | Table(rows: seq<seq<string>>)
    | Rule
    | Image(slot: ImageSlot, imageWidth: real, imageHeight: real)

  /** Calls made on a ReportLab canvas. */
  datatype DrawCmd =
    | SaveState
    | RestoreState
    | SetFont(font: string, size: int)
    | SetFillColor(color: string)
    | DrawString(x: real, y: real, text: string)
    | DrawRightString(x: real, y: real, text: string)
    | Line(x1: real, y1: real, x2: real, y2: real)

  /** How many elements of `es` satisfy `P`. */
  function Count(es: seq<Element>, P: Element -> bool): nat {
    if es == [] then 0 else (if P(es[0]) then 1 else 0) + Count(es[1..], P)
  }

  lemma {:induction false} CountConcat(a: seq<Element>, b: seq<Element>, P: Element -> bool)
    ensures Count(a + b, P) == Count(a, P) + Count(b, P)
  {
    if a == [] {
      assert a + b == b;
    } else {
      assert (a + b)[1..] == a[1..] + b;
      CountConcat(a[1..], b, P);
    }
  }

  /** `Count` over eight consecutive parts. */
  lemma CountSplit8(a: seq<Element>, b: seq<Element>, c: seq<Element>, d: seq<Element>,
                    e: seq<Element>, f: seq<Element>, g: seq<Element>, h: seq<Element>, P: Element -> bool)
    ensures Count(a + b + c + d + e + f + g + h, P)
      == Count(a, P) + Count(b, P) + Count(c, P) + Count(d, P) + Count(e, P) + Count(f, P) + Count(g, P) + Count(h, P)
  {
    CountConcat(a + b + c + d + e + f + g, h, P);
    CountConcat(a + b + c + d + e + f, g, P);
    CountConcat(a + b + c + d + e, f, P);
    CountConcat(a + b + c + d, e, P);
    CountConcat(a + b + c, d, P);
    CountConcat(a + b, c, P);
    CountConcat(a, b, P);
  }

  /** An element that satisfies `P` is counted; `Count` is zero exactly when none does. */
  lemma {:induction false} CountZero(es: seq<Element>, P: Element -> bool)
    ensures Count(es, P) == 0 <==> forall i :: 0 <= i < |es| ==> !P(es[i])
  {
    if es != [] {
      CountZero(es[1..], P);
      assert forall i :: 1 <= i < |es| ==> es[i] == es[1..][i - 1];
    }
  }

  /** `CountZero` stated over the members of the list. */
  lemma CountNone(es: seq<Element>, P: Element -> bool)
    requires forall x :: x in es ==> !P(x)
    ensures Count(es, P) == 0
  {
    CountZero(es, P);
  }

  /** A list without breaks counts none of either kind. */
  lemma NoBreaksCounted(es: seq<Element>)
    requires forall x :: x in es ==> !x.PageBreak? && !x.CondPageBreak?
    ensures Count(es, IsPageBreak) == 0 && Count(es, IsCondPageBreak) == 0
  {
    CountNone(es, IsPageBreak);
    CountNone(es, IsCondPageBreak);
  }

  predicate IsPageBreak(e: Element) {
    e.PageBreak?
  }

  predicate IsCondPageBreak(e: Element) {
    e.CondPageBreak?
  }
}
