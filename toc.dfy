/** The table of contents of `PDFBuilder._create_toc`: a pre-order walk of
    the page tree that skips links with their subtrees, lists nothing at or
    below `toc_depth`, and records one entry per listed page. */
module Toc {
  import opened Wrappers
  import opened Model
  import opened Styles

  /** A record appended to `self.toc_entries`. */
  datatype TocRecord = TocRecord(title: string, id: string, level: int)

  /** `min(depth + 1, 3)`. */
  function TocLevel(depth: nat): (l: int)
    ensures 1 <= l <= 3
    ensures depth < 2 ==> l == depth + 1
    ensures depth >= 2 ==> l == 3
  {
    if depth + 1 < 3 then depth + 1 else 3
  }

  /** The records listed for the forest `pages` at `depth`, in visiting order. */
  function TocRecords(pages: seq<PageNode>, depth: nat, tocDepth: int): seq<TocRecord>
    decreases pages
  {
    if pages == [] then []
    else NodeRecords(pages[0], depth, tocDepth) + TocRecords(pages[1..], depth, tocDepth)
  }

  /** The records listed for one page and, when it is listed, its descendants. */
  function NodeRecords(p: PageNode, depth: nat, tocDepth: int): seq<TocRecord>
    decreases p
  {
    if IsLink(p) || depth >= tocDepth then []
    else [TocRecord(TitleOf(p), p.id, TocLevel(depth))] + TocRecords(p.children, depth + 1, tocDepth)
  }

  function EntryParagraph(r: TocRecord): Element {
    Paragraph(r.title, TocEntry(r.level))
  }

  /** One entry paragraph per record, in the same order: the record's
      title in the entry style of its level. */
  function EntryParagraphs(recs: seq<TocRecord>): (es: seq<Element>)
    ensures |es| == |recs|
  {
    seq(|recs|, i requires 0 <= i < |recs| => EntryParagraph(recs[i]))
  }

  /** The heading that opens the table of contents. */
  const TocTitle := Paragraph("Table of Contents", TocHeading)

  /** The flowables `_create_toc(pages, depth)` returns: at depth 0 the
      entries are bracketed by the heading and a page break. */
  function TocElements(pages: seq<PageNode>, depth: nat, tocDepth: int): seq<Element> {
    (if depth == 0 then [TocTitle] else [])
    + EntryParagraphs(TocRecords(pages, depth, tocDepth))
    + (if depth == 0 then [PageBreak] else [])
  }

  /** Entry `i` shows record `i`'s title in the entry style of its level. */
  lemma EntryParagraphsAt(recs: seq<TocRecord>, i: nat)
    requires i < |recs|
    ensures EntryParagraphs(recs)[i] == Paragraph(recs[i].title, TocEntry(recs[i].level))
  {
  }

  lemma EntryParagraphsConcat(a: seq<TocRecord>, b: seq<TocRecord>)
    ensures EntryParagraphs(a + b) == EntryParagraphs(a) + EntryParagraphs(b)
  {
    assert forall i :: 0 <= i < |a| + |b| ==>
      EntryParagraphs(a + b)[i] == (EntryParagraphs(a) + EntryParagraphs(b))[i];
  }

  /** The walk over a forest is the concatenation of the walks over its parts. */
  lemma {:induction false} TocRecordsConcat(a: seq<PageNode>, b: seq<PageNode>, depth: nat, tocDepth: int)
    ensures TocRecords(a + b, depth, tocDepth) == TocRecords(a, depth, tocDepth) + TocRecords(b, depth, tocDepth)
  {
    if a == [] {
      assert a + b == b;
    } else {
      assert (a + b)[0] == a[0];
      assert (a + b)[1..] == a[1..] + b;
      TocRecordsConcat(a[1..], b, depth, tocDepth);
    }
  }

  /** One more page of a forest, taken in order, with its entries. */
  lemma TocRecordsStep(pages: seq<PageNode>, i: nat, depth: nat, tocDepth: int)
    requires i < |pages|
    ensures TocRecords(pages[..i + 1], depth, tocDepth)
      == TocRecords(pages[..i], depth, tocDepth) + NodeRecords(pages[i], depth, tocDepth)
    ensures EntryParagraphs(TocRecords(pages[..i + 1], depth, tocDepth))
      == EntryParagraphs(TocRecords(pages[..i], depth, tocDepth)) + EntryParagraphs(NodeRecords(pages[i], depth, tocDepth))
  {
    assert pages[..i + 1] == pages[..i] + [pages[i]];
    TocRecordsConcat(pages[..i], [pages[i]], depth, tocDepth);
    assert TocRecords([pages[i]], depth, tocDepth) == NodeRecords(pages[i], depth, tocDepth);
    EntryParagraphsConcat(TocRecords(pages[..i], depth, tocDepth), NodeRecords(pages[i], depth, tocDepth));
  }

  /** A link page contributes nothing, whatever its subtree holds. */
  lemma TocSkipsLink(a: seq<PageNode>, n: PageNode, b: seq<PageNode>, depth: nat, tocDepth: int)
    requires IsLink(n)
    ensures TocRecords(a + [n] + b, depth, tocDepth) == TocRecords(a + b, depth, tocDepth)
  {
    TocRecordsConcat(a + [n], b, depth, tocDepth);
    TocRecordsConcat(a, [n], depth, tocDepth);
    TocRecordsConcat(a, b, depth, tocDepth);
    assert TocRecords([n], depth, tocDepth) == [];
  }

  /** Nothing at or below `toc_depth` is listed. */
  lemma {:induction false} TocBeyondDepthEmpty(pages: seq<PageNode>, depth: nat, tocDepth: int)
    requires depth >= tocDepth
    ensures TocRecords(pages, depth, tocDepth) == []
  {
    if pages != [] {
      TocBeyondDepthEmpty(pages[1..], depth, tocDepth);
    }
  }

  /** Every listed level is `min(depth + 1, 3)` for a depth below `toc_depth`,
      so it lies in 1..3 and is never shallower than the walk's starting level. */
  lemma {:induction false} TocLevelsInRange(pages: seq<PageNode>, depth: nat, tocDepth: int)
    ensures forall r :: r in TocRecords(pages, depth, tocDepth) ==> TocLevel(depth) <= r.level <= 3
    decreases pages
  {
    if pages != [] {
      var p := pages[0];
      if !IsLink(p) && depth < tocDepth {
        TocLevelsInRange(p.children, depth + 1, tocDepth);
      }
      TocLevelsInRange(pages[1..], depth, tocDepth);
    }
  }

  /** `hidden` is never consulted by the table of contents. */
  lemma {:induction false} TocIgnoresHidden(pages: seq<PageNode>, h: bool, depth: nat, tocDepth: int)
    ensures TocRecords(WithHidden(pages, h), depth, tocDepth) == TocRecords(pages, depth, tocDepth)
    decreases pages
  {
    if pages != [] {
      TocIgnoresHidden(pages[0].children, h, depth + 1, tocDepth);
      TocIgnoresHidden(pages[1..], h, depth, tocDepth);
      var w := WithHidden(pages, h);
      assert w[0] == pages[0].(hidden := h, children := WithHidden(pages[0].children, h));
      assert w[1..] == WithHidden(pages[1..], h);
    }
  }

  /** Every paragraph of the table of contents names a style that exists. */
  lemma TocStylesExist(cfg: Config, pages: seq<PageNode>)
    ensures forall e :: e in TocElements(pages, 0, cfg.tocDepth) && e.Paragraph? ==> StyleOf(cfg, e.style).Some?
  {
    var recs := TocRecords(pages, 0, cfg.tocDepth);
    TocLevelsInRange(pages, 0, cfg.tocDepth);
    forall e | e in TocElements(pages, 0, cfg.tocDepth) && e.Paragraph?
      ensures StyleOf(cfg, e.style).Some?
    {
      if e != TocTitle {
        assert e in EntryParagraphs(recs);
        var i :| 0 <= i < |recs| && e == EntryParagraph(recs[i]);
        assert recs[i] in recs;
      }
    }
  }

  // ---------------------------------------------------------------------
  // An independent description of the walk: prune the tree, then list the
  // pruned tree in pre-order.

  /** The part of the forest the walk visits: link pages are removed together
      with their subtrees, and nothing is kept at or below `toc_depth`. */
  function Prune(pages: seq<PageNode>, depth: nat, tocDepth: int): seq<PageNode>
    decreases pages
  {
    if pages == [] then []
    else PruneNode(pages[0], depth, tocDepth) + Prune(pages[1..], depth, tocDepth)
  }

  function PruneNode(p: PageNode, depth: nat, tocDepth: int): seq<PageNode>
    decreases p
  {
    if IsLink(p) || depth >= tocDepth then []
    else [p.(children := Prune(p.children, depth + 1, tocDepth))]
  }

  /** Every node of a forest with its depth: parents before their children,
      siblings in order. */
  function PreOrder(pages: seq<PageNode>, depth: nat): seq<(PageNode, nat)>
    decreases pages
  {
    if pages == [] then []
    else [(pages[0], depth)] + PreOrder(pages[0].children, depth + 1) + PreOrder(pages[1..], depth)
  }

  function RecordOf(v: (PageNode, nat)): TocRecord {
    TocRecord(TitleOf(v.0), v.0.id, TocLevel(v.1))
  }

  /** The record of each visited page, in visiting order: its title, its
      id and the entry level of its depth. */
  function RecordsOf(vs: seq<(PageNode, nat)>): (rs: seq<TocRecord>)
    ensures |rs| == |vs|
    ensures forall i :: 0 <= i < |vs| ==>
      rs[i].title == TitleOf(vs[i].0) && rs[i].id == vs[i].0.id && rs[i].level == TocLevel(vs[i].1)
  {
    seq(|vs|, i requires 0 <= i < |vs| => RecordOf(vs[i]))
  }

  lemma RecordsOfConcat(a: seq<(PageNode, nat)>, b: seq<(PageNode, nat)>)
    ensures RecordsOf(a + b) == RecordsOf(a) + RecordsOf(b)
  {
    assert forall i :: 0 <= i < |a| + |b| ==> RecordsOf(a + b)[i] == (RecordsOf(a) + RecordsOf(b))[i];
  }

  lemma {:induction false} PreOrderConcat(a: seq<PageNode>, b: seq<PageNode>, depth: nat)
    ensures PreOrder(a + b, depth) == PreOrder(a, depth) + PreOrder(b, depth)
  {
    if a == [] {
      assert a + b == b;
    } else {
      assert (a + b)[0] == a[0];
      assert (a + b)[1..] == a[1..] + b;
      PreOrderConcat(a[1..], b, depth);
    }
  }

  /** The table of contents lists exactly the pruned tree, in pre-order. */
  lemma {:induction false} TocIsPreOrderOfPruned(pages: seq<PageNode>, depth: nat, tocDepth: int)
    ensures TocRecords(pages, depth, tocDepth) == RecordsOf(PreOrder(Prune(pages, depth, tocDepth), depth))
    decreases pages
  {
    if pages != [] {
      var p, rest := pages[0], pages[1..];
      var head := PruneNode(p, depth, tocDepth);
      PreOrderConcat(head, Prune(rest, depth, tocDepth), depth);
      RecordsOfConcat(PreOrder(head, depth), PreOrder(Prune(rest, depth, tocDepth), depth));
      TocIsPreOrderOfPruned(rest, depth, tocDepth);
      if !IsLink(p) && depth < tocDepth {
        var q := p.(children := Prune(p.children, depth + 1, tocDepth));
        TocIsPreOrderOfPruned(p.children, depth + 1, tocDepth);
        assert head == [q];
        assert PreOrder(head, depth) == [(q, depth)] + PreOrder(q.children, depth + 1) + PreOrder([], depth);
        RecordsOfConcat([(q, depth)], PreOrder(q.children, depth + 1));
        assert RecordsOf([(q, depth)]) == [TocRecord(TitleOf(p), p.id, TocLevel(depth))];
      }
    }
  }

  /** The pruned tree holds no link page and nothing at or below `toc_depth`. */
  lemma {:induction false} PrunedVisitsListable(pages: seq<PageNode>, depth: nat, tocDepth: int)
    ensures forall v :: v in PreOrder(Prune(pages, depth, tocDepth), depth) ==>
      !IsLink(v.0) && depth <= v.1 < tocDepth
    decreases pages
  {
    if pages != [] {
      var p, rest := pages[0], pages[1..];
      var head := PruneNode(p, depth, tocDepth);
      PreOrderConcat(head, Prune(rest, depth, tocDepth), depth);
      PrunedVisitsListable(rest, depth, tocDepth);
      if !IsLink(p) && depth < tocDepth {
        PrunedVisitsListable(p.children, depth + 1, tocDepth);
        var q := p.(children := Prune(p.children, depth + 1, tocDepth));
        assert PreOrder(head, depth) == [(q, depth)] + PreOrder(q.children, depth + 1) + PreOrder([], depth);
      }
    }
  }
}
