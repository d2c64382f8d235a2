/** The body of the document, `_process_pages`: a pre-order walk of the page
    tree that skips links, and hidden pages unless they are included, each
    with its subtree. Fetching a page's markdown and parsing it into HTML is
    the opaque function `fetch`: it yields the top-level nodes of the parsed
    page, or `None` when the request or the conversion failed. */
module Content {
  import opened Wrappers
  import opened Model
  import opened Styles
  import opened Markup

  type Fetch = string -> Option<seq<Html>>

  /** A page the walk renders (with, then, its children). */
  predicate Kept(cfg: Config, p: PageNode) {
    !IsLink(p) && !(p.hidden && !cfg.includeHiddenPages)
  }

  /** `min(depth + 1, 6)`. */
  function HeadingLevel(depth: nat): (l: int)
    ensures 1 <= l <= 6
    ensures depth < 5 ==> l == depth + 1
    ensures depth >= 5 ==> l == 6
  {
    if depth + 1 < 6 then depth + 1 else 6
  }

  /** `3 * inch`: the space a top-level page needs left on the current page. */
  const TopLevelBreak := 216

  /** The page's own content: only a document page with an id is fetched;
      a failed fetch contributes nothing. */
  function FetchedBlocks(fetch: Fetch, p: PageNode): seq<Element> {
    if KindOf(p) == Document && p.id != "" then
      match fetch(p.id)
      case None => []
      case Some(nodes) => ForestBlocks(nodes)
    else []
  }

  /** The flowables of one kept page, before those of its children: a
      top-level page first asks for a fresh page. */
  function PageBlock(cfg: Config, fetch: Fetch, p: PageNode, depth: nat): seq<Element> {
    (if depth == 0 then [CondPageBreak(TopLevelBreak)] else []) + PageBody(cfg, fetch, p, depth)
  }

  /** The heading, optional description, fetched content and spacer of one page. */
  function PageBody(cfg: Config, fetch: Fetch, p: PageNode, depth: nat): seq<Element> {
    [Paragraph(TitleOf(p), CustomHeading(HeadingLevel(depth)))]
    + (if cfg.includePageDescriptions && p.description != "" then [Paragraph(p.description, PageDescription)] else [])
    + FetchedBlocks(fetch, p)
    + [Spacer(12)]
  }

  /** The flowables `_process_pages(pages, depth)` returns. */
  function ContentElements(cfg: Config, fetch: Fetch, pages: seq<PageNode>, depth: nat): seq<Element>
    decreases pages
  {
    if pages == [] then []
    else NodeContent(cfg, fetch, pages[0], depth) + ContentElements(cfg, fetch, pages[1..], depth)
  }

  function NodeContent(cfg: Config, fetch: Fetch, p: PageNode, depth: nat): seq<Element>
    decreases p
  {
    if !Kept(cfg, p) then []
    else PageBlock(cfg, fetch, p, depth) + ContentElements(cfg, fetch, p.children, depth + 1)
  }

  lemma {:induction false} ContentConcat(cfg: Config, fetch: Fetch, a: seq<PageNode>, b: seq<PageNode>, depth: nat)
    ensures ContentElements(cfg, fetch, a + b, depth) == ContentElements(cfg, fetch, a, depth) + ContentElements(cfg, fetch, b, depth)
  {
    if a == [] {
      assert a + b == b;
    } else {
      assert (a + b)[0] == a[0];
      assert (a + b)[1..] == a[1..] + b;
      ContentConcat(cfg, fetch, a[1..], b, depth);
    }
  }

  /** One more page of a forest, taken in order. */
  lemma ContentStep(cfg: Config, fetch: Fetch, pages: seq<PageNode>, i: nat, depth: nat)
    requires i < |pages|
    ensures ContentElements(cfg, fetch, pages[..i + 1], depth)
      == ContentElements(cfg, fetch, pages[..i], depth) + NodeContent(cfg, fetch, pages[i], depth)
  {
    assert pages[..i + 1] == pages[..i] + [pages[i]];
    ContentConcat(cfg, fetch, pages[..i], [pages[i]], depth);
    assert ContentElements(cfg, fetch, [pages[i]], depth) == NodeContent(cfg, fetch, pages[i], depth);
  }

  /** A page that is not kept (a link, or a hidden page while hidden pages
      are excluded) contributes nothing, whatever its subtree holds. */
  lemma ContentSkipsDropped(cfg: Config, fetch: Fetch, a: seq<PageNode>, n: PageNode, b: seq<PageNode>, depth: nat)
    requires IsLink(n) || (n.hidden && !cfg.includeHiddenPages)
    ensures ContentElements(cfg, fetch, a + [n] + b, depth) == ContentElements(cfg, fetch, a + b, depth)
  {
    ContentConcat(cfg, fetch, a + [n], b, depth);
    ContentConcat(cfg, fetch, a, [n], depth);
    ContentConcat(cfg, fetch, a, b, depth);
    assert ContentElements(cfg, fetch, [n], depth) == [];
  }

  /** With hidden pages included, the `hidden` flags make no difference. */
  lemma {:induction false} HiddenIrrelevantWhenIncluded(cfg: Config, fetch: Fetch, pages: seq<PageNode>, h: bool, depth: nat)
    requires cfg.includeHiddenPages
    ensures ContentElements(cfg, fetch, WithHidden(pages, h), depth) == ContentElements(cfg, fetch, pages, depth)
    decreases pages
  {
    if pages != [] {
      var p := pages[0];
      var w := WithHidden(pages, h);
      assert w[0] == p.(hidden := h, children := WithHidden(p.children, h));
      assert w[1..] == WithHidden(pages[1..], h);
      HiddenIrrelevantWhenIncluded(cfg, fetch, p.children, h, depth + 1);
      HiddenIrrelevantWhenIncluded(cfg, fetch, pages[1..], h, depth);
      NodeIgnoresHidden(cfg, fetch, p, w[0], depth);
    }
  }

  /** With hidden pages included, a page whose subtree renders the same
      renders the same whatever its own `hidden` flag. */
  lemma NodeIgnoresHidden(cfg: Config, fetch: Fetch, p: PageNode, q: PageNode, depth: nat)
    requires cfg.includeHiddenPages
    requires q == p.(hidden := q.hidden, children := q.children)
    requires ContentElements(cfg, fetch, q.children, depth + 1) == ContentElements(cfg, fetch, p.children, depth + 1)
    ensures NodeContent(cfg, fetch, q, depth) == NodeContent(cfg, fetch, p, depth)
  {
    PageBlockIgnoresHidden(cfg, fetch, p, q, depth);
  }

  /** A page's own block does not depend on its `hidden` flag or its children. */
  lemma PageBlockIgnoresHidden(cfg: Config, fetch: Fetch, p: PageNode, q: PageNode, depth: nat)
    requires q == p.(hidden := q.hidden, children := q.children)
    ensures PageBlock(cfg, fetch, q, depth) == PageBlock(cfg, fetch, p, depth)
  {
  }

  /** Below the top level the body holds no page break of either kind, and
      every paragraph style it names exists (`BlockShaped`). */
  lemma {:induction false} NestedContentShaped(cfg: Config, fetch: Fetch, pages: seq<PageNode>, depth: nat)
    requires depth > 0
    ensures forall x :: x in ContentElements(cfg, fetch, pages, depth) ==> BlockShaped(cfg, x)
    decreases pages
  {
    if pages != [] {
      var p := pages[0];
      NestedContentShaped(cfg, fetch, pages[1..], depth);
      if Kept(cfg, p) {
        NestedContentShaped(cfg, fetch, p.children, depth + 1);
        PageBodyShaped(cfg, fetch, p, depth);
      }
    }
  }

  lemma FetchedShaped(cfg: Config, fetch: Fetch, p: PageNode)
    ensures forall x :: x in FetchedBlocks(fetch, p) ==> BlockShaped(cfg, x)
  {
    if KindOf(p) == Document && p.id != "" && fetch(p.id).Some? {
      ForestBlocksShaped(cfg, fetch(p.id).value);
    }
  }

  /** The pages of the forest that the walk keeps at its own level. */
  function KeptPages(cfg: Config, pages: seq<PageNode>): (r: seq<PageNode>)
    ensures |r| <= |pages|
    ensures forall p :: p in r <==> p in pages && Kept(cfg, p)
  {
    if pages == [] then []
    else (if Kept(cfg, pages[0]) then [pages[0]] else []) + KeptPages(cfg, pages[1..])
  }

  /** Keeping pages commutes with concatenation, so the kept pages stay in
      their order in the forest. */
  lemma {:induction false} KeptPagesConcat(cfg: Config, a: seq<PageNode>, b: seq<PageNode>)
    ensures KeptPages(cfg, a + b) == KeptPages(cfg, a) + KeptPages(cfg, b)
  {
    if a == [] {
      assert a + b == b;
    } else {
      assert (a + b)[0] == a[0];
      assert (a + b)[1..] == a[1..] + b;
      KeptPagesConcat(cfg, a[1..], b);
    }
  }

  predicate Styled(cfg: Config, x: Element) {
    (x.Paragraph? || x.Preformatted?) ==> StyleOf(cfg, x.style).Some?
  }

  /** A page's body holds no break and names only existing styles, at any depth. */
  lemma PageBodyShaped(cfg: Config, fetch: Fetch, p: PageNode, depth: nat)
    ensures forall x :: x in PageBody(cfg, fetch, p, depth) ==> BlockShaped(cfg, x)
  {
    var desc := if cfg.includePageDescriptions && p.description != "" then [Paragraph(p.description, PageDescription)] else [];
    var head := [Paragraph(TitleOf(p), CustomHeading(HeadingLevel(depth)))] + desc;
    assert forall x :: x in head ==> BlockShaped(cfg, x) by {
      assert StyleOf(cfg, CustomHeading(HeadingLevel(depth))).Some?;
      assert StyleOf(cfg, PageDescription).Some?;
    }
    FetchedShaped(cfg, fetch, p);
    assert PageBody(cfg, fetch, p, depth) == head + FetchedBlocks(fetch, p) + [Spacer(12)];
  }

  /** A top-level page's own block opens with its one `CondPageBreak`. */
  lemma TopPageBlockShape(cfg: Config, fetch: Fetch, p: PageNode)
    ensures Count(PageBlock(cfg, fetch, p, 0), IsCondPageBreak) == 1
    ensures Count(PageBlock(cfg, fetch, p, 0), IsPageBreak) == 0
    ensures forall x :: x in PageBlock(cfg, fetch, p, 0) ==> Styled(cfg, x)
  {
    var brk: seq<Element> := [CondPageBreak(TopLevelBreak)];
    var body := PageBody(cfg, fetch, p, 0);
    assert Count(brk, IsCondPageBreak) == 1 && Count(brk, IsPageBreak) == 0 by {
      assert brk[1..] == [];
    }
    PageBodyShaped(cfg, fetch, p, 0);
    NoBreaksCounted(body);
    CountConcat(brk, body, IsCondPageBreak);
    CountConcat(brk, body, IsPageBreak);
  }

  /** A top-level page and its subtree hold one `CondPageBreak` if the page
      is kept and none otherwise, and no `PageBreak`. */
  lemma TopNodeShape(cfg: Config, fetch: Fetch, p: PageNode)
    ensures Count(NodeContent(cfg, fetch, p, 0), IsCondPageBreak) == if Kept(cfg, p) then 1 else 0
    ensures Count(NodeContent(cfg, fetch, p, 0), IsPageBreak) == 0
    ensures forall x :: x in NodeContent(cfg, fetch, p, 0) ==> Styled(cfg, x)
  {
    if Kept(cfg, p) {
      var block := PageBlock(cfg, fetch, p, 0);
      var kids := ContentElements(cfg, fetch, p.children, 1);
      TopPageBlockShape(cfg, fetch, p);
      NestedContentShaped(cfg, fetch, p.children, 1);
      NoBreaksCounted(kids);
      CountConcat(block, kids, IsCondPageBreak);
      CountConcat(block, kids, IsPageBreak);
    }
  }

  /** The body never holds a `PageBreak`; it holds one `CondPageBreak` per
      kept top-level page (and none below the top level). Every paragraph
      style it names exists. */
  lemma {:induction false} TopLevelBreaks(cfg: Config, fetch: Fetch, pages: seq<PageNode>)
    ensures Count(ContentElements(cfg, fetch, pages, 0), IsCondPageBreak) == |KeptPages(cfg, pages)|
    ensures Count(ContentElements(cfg, fetch, pages, 0), IsPageBreak) == 0
    ensures forall x :: x in ContentElements(cfg, fetch, pages, 0) ==> Styled(cfg, x)
  {
    if pages != [] {
      var p := pages[0];
      var rest := ContentElements(cfg, fetch, pages[1..], 0);
      TopLevelBreaks(cfg, fetch, pages[1..]);
      TopNodeShape(cfg, fetch, p);
      CountConcat(NodeContent(cfg, fetch, p, 0), rest, IsCondPageBreak);
      CountConcat(NodeContent(cfg, fetch, p, 0), rest, IsPageBreak);
    }
  }
}
