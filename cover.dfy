/** The cover page of `_create_cover_page`: optional logo and cover image,
    the title, the subtitle, the meta lines and a closing page break.
    Decoding an uploaded image is the opaque function `decode` (PIL); it
    yields the pixel size, or `None` when the bytes cannot be opened. */
module Cover {
  import opened Wrappers
  import opened Model
  import opened Text

  datatype Dims = Dims(width: nat, height: nat)

  type Decoder = Bytes -> Option<Dims>

  /** A width and height in points. */
  datatype Fit = Fit(width: real, height: real)

  function Min(a: real, b: real): real {
    if a <= b then a else b
  }

  /** The logo's box: 3 by 1.5 inches. */
  const LogoMaxWidth: real := 216.0
  const LogoMaxHeight: real := 108.0

  /** The cover image's box: 5 by 3 inches. */
  const ImageMaxWidth: real := 360.0
  const ImageMaxHeight: real := 216.0

  /** `width / height` of the fitted size equals `w / h`. */
  predicate KeepsAspect(f: Fit, w: real, h: real) {
    f.width * h == f.height * w
  }

  lemma QuotientBelow(x: real, a: real, b: real)
    requires a > 0.0
    ensures x <= b * a <==> x / a <= b
  {
    assert (x / a) * a == x;
    if x <= b * a {
      assert x / a <= b;
    }
  }

  /** Dividing by the aspect ratio `w / h` is scaling by `h / w`. */
  lemma DivideByAspect(x: real, w: real, h: real)
    requires 0.0 < w && 0.0 < h
    ensures x / (w / h) == x * h / w
    ensures (x / (w / h)) * w == x * h
  {
  }

  /** Scaling by a non-negative factor keeps order. */
  lemma Scale(k: real, a: real, b: real)
    requires 0.0 <= k && a <= b
    ensures k * a <= k * b && a * k <= b * k
  {
  }

  /** The sizes a wide image gets from a width `iw` no wider than itself. */
  lemma WideScaled(w: real, h: real, iw: real, maxH: real)
    requires 0.0 < h < w && 0.0 <= iw <= w && iw <= maxH * (w / h)
    ensures iw * h == (iw / (w / h)) * w
    ensures 0.0 <= iw / (w / h) <= maxH && iw / (w / h) <= h
  {
    var aspect := w / h;
    DivideByAspect(iw, w, h);
    QuotientBelow(iw, aspect, maxH);
    QuotientBelow(iw, aspect, h);
    assert w == h * aspect;
  }

  /** The sizes a tall or square image gets from a height `ih` no taller than itself. */
  lemma TallScaled(w: real, h: real, ih: real)
    requires 0.0 <= w <= h && 0.0 < h && 0.0 <= ih <= h
    ensures (ih * (w / h)) * h == ih * w
    ensures 0.0 <= ih * (w / h) <= ih && ih * (w / h) <= w
  {
    var aspect := w / h;
    assert aspect * h == w;
    QuotientBelow(w, h, 1.0);
    assert 0.0 <= aspect <= 1.0;
    Scale(ih, aspect, 1.0);
    Scale(aspect, ih, h);
  }

  /** A tall or square logo (`aspect <= 1`): its height is clamped to the
      box, its width follows. */
  function TallLogo(w: real, h: real): (f: Fit)
    requires 0.0 <= w <= h && 0.0 < h
    ensures KeepsAspect(f, w, h)
    ensures 0.0 <= f.width <= LogoMaxWidth && 0.0 <= f.height <= LogoMaxHeight
    ensures f.width <= w && f.height <= h
  {
    var ih := Min(h, LogoMaxHeight);
    TallScaled(w, h, ih);
    Fit(ih * (w / h), ih)
  }

  /** A wide logo as the source sizes it: its width is clamped to the box,
      its height follows and is not clamped. */
  function WideLogoAsWritten(w: real, h: real): (f: Fit)
    requires 0.0 < h < w
    ensures KeepsAspect(f, w, h)
    ensures 0.0 <= f.width <= LogoMaxWidth && f.width <= w && 0.0 <= f.height <= h
  {
    var iw := Min(w, LogoMaxWidth);
    assert h * (w / h) == w;
    WideScaled(w, h, iw, h);
    Fit(iw, iw / (w / h))
  }

  /** A wide logo with the height clamp: its width is also limited to what
      the box's height allows at this aspect ratio. */
  function WideLogo(w: real, h: real): (f: Fit)
    requires 0.0 < h < w
    ensures KeepsAspect(f, w, h)
    ensures 0.0 <= f.width <= LogoMaxWidth && 0.0 <= f.height <= LogoMaxHeight
    ensures f.width <= w && f.height <= h
  {
    var iw := Min(Min(w, LogoMaxWidth), LogoMaxHeight * (w / h));
    assert 0.0 <= w / h;
    WideScaled(w, h, iw, LogoMaxHeight);
    Fit(iw, iw / (w / h))
  }

  /** The logo size as the source computes it: a wide logo is clamped to the
      box's width only, a tall one to the box's height only. */
  function LogoFitAsWritten(w: real, h: real): (f: Fit)
    requires 0.0 <= w && 0.0 < h
    ensures KeepsAspect(f, w, h)
    ensures 0.0 <= f.width <= LogoMaxWidth && f.width <= w && 0.0 <= f.height <= h
  {
    QuotientBelow(w, h, 1.0);
    if w / h > 1.0 then WideLogoAsWritten(w, h) else TallLogo(w, h)
  }

  /** A 300 by 200 pixel logo is drawn 144 points high, above the 108-point box. */
  lemma LogoAsWrittenOverflows()
    ensures LogoFitAsWritten(300.0, 200.0) == Fit(216.0, 144.0)
    ensures LogoFitAsWritten(300.0, 200.0).height > LogoMaxHeight
  {
    assert 300.0 / 200.0 == 1.5;
  }

  /** The logo size with the height clamp the wide branch omits: it keeps the
      aspect ratio, never enlarges the image and stays inside the box. */
  function LogoFit(w: real, h: real): (f: Fit)
    requires 0.0 <= w && 0.0 < h
    ensures KeepsAspect(f, w, h)
    ensures 0.0 <= f.width <= LogoMaxWidth && 0.0 <= f.height <= LogoMaxHeight
    ensures f.width <= w && f.height <= h
  {
    QuotientBelow(w, h, 1.0);
    if w / h > 1.0 then WideLogo(w, h) else TallLogo(w, h)
  }

  /** Wherever the source's size already fits the box, the corrected size is the same. */
  lemma LogoFitAgrees(w: real, h: real)
    requires 0.0 <= w && 0.0 < h
    requires LogoFitAsWritten(w, h).height <= LogoMaxHeight
    ensures LogoFit(w, h) == LogoFitAsWritten(w, h)
  {
    QuotientBelow(w, h, 1.0);
    if w / h > 1.0 {
      var iw := Min(w, LogoMaxWidth);
      QuotientBelow(iw, w / h, LogoMaxHeight);
    }
  }

  /** The cover image is scaled, up or down, until it touches the box's
      width or its height, keeping its aspect ratio. */
  function CoverImageFit(w: real, h: real): (f: Fit)
    requires 0.0 <= w && 0.0 < h
    ensures f.width * h == f.height * w
    ensures 0.0 <= f.width <= ImageMaxWidth && 0.0 <= f.height <= ImageMaxHeight
    ensures f.width == ImageMaxWidth || f.height == ImageMaxHeight
  {
    var aspect := w / h;
    if aspect > ImageMaxWidth / ImageMaxHeight then
      assert ImageMaxWidth / aspect == ImageMaxWidth * h / w;
      assert ImageMaxWidth / aspect <= ImageMaxHeight by {
        assert ImageMaxWidth < ImageMaxHeight * aspect;
      }
      Fit(ImageMaxWidth, ImageMaxWidth / aspect)
    else
      assert ImageMaxHeight * aspect <= ImageMaxWidth;
      Fit(ImageMaxHeight * aspect, ImageMaxHeight)
  }

  /** An uploaded image and the half-inch space after it; nothing when
      nothing was uploaded or the image cannot be decoded (a zero height
      fails like an undecodable file, by division by zero). The logo is
      sized as the source sizes it, by `LogoFitAsWritten`. */
  function ImageBlock(data: Bytes, decode: Decoder, slot: ImageSlot): seq<Element> {
    if data == [] then []
    else
      match decode(data)
      case None => []
      case Some(d) =>
        if d.height == 0 then []
        else
          var f := if slot == CoverLogo then LogoFitAsWritten(d.width as real, d.height as real)
                   else CoverImageFit(d.width as real, d.height as real);
          [Image(slot, f.width, f.height), Spacer(36)]
  }

  /** `config.cover_title or space_info.get('title', 'Documentation')`. */
  function CoverTitleText(cfg: Config, space: Dict): (t: string)
    ensures cfg.coverTitle != "" ==> t == cfg.coverTitle
    ensures cfg.coverTitle == "" && "title" in space ==> t == space["title"]
    ensures cfg.coverTitle == "" && "title" !in space ==> t == "Documentation"
  {
    if cfg.coverTitle != "" then cfg.coverTitle else Get(space, "title", "Documentation")
  }

  /** The subtitle paragraph: the configured subtitle, else the space's description. */
  function SubtitleBlock(cfg: Config, space: Dict): seq<Element> {
    if cfg.coverSubtitle != "" then [Paragraph(cfg.coverSubtitle, CoverSubtitle)]
    else if Get(space, "description", "") != "" then [Paragraph(space["description"], CoverSubtitle)]
    else []
  }

  /** `org_info and org_info.get('title')`. */
  predicate HasPublisher(org: Option<Dict>) {
    org.Some? && "title" in org.value && org.value["title"] != ""
  }

  predicate ShowsVersion(cfg: Config) {
    cfg.showVersion && cfg.versionText != ""
  }

  /** `meta_parts`: version, date and publisher, each when it applies, in that order. */
  function MetaLines(cfg: Config, org: Option<Dict>, dateText: string): (r: seq<string>)
    ensures |r| == (if ShowsVersion(cfg) then 1 else 0) + (if cfg.showDate then 1 else 0) + (if HasPublisher(org) then 1 else 0)
    ensures ShowsVersion(cfg) ==> r[0] == "Version: " + cfg.versionText
    ensures cfg.showDate ==> r[if ShowsVersion(cfg) then 1 else 0] == dateText
    ensures HasPublisher(org) ==> r[|r| - 1] == "Published by " + org.value["title"]
  {
    (if ShowsVersion(cfg) then ["Version: " + cfg.versionText] else [])
    + (if cfg.showDate then [dateText] else [])
    + (if HasPublisher(org) then ["Published by " + org.value["title"]] else [])
  }

  /** The meta paragraph, present only when there is at least one line. */
  function MetaBlock(lines: seq<string>): seq<Element> {
    if lines != [] then [Paragraph(Join(lines, "<br/>"), CoverMeta)] else []
  }

  /** The flowables `_create_cover_page` returns; `dateText` is today's date
      already formatted with `date_format`. */
  function CoverElements(cfg: Config, space: Dict, org: Option<Dict>, dateText: string, decode: Decoder): seq<Element> {
    [Spacer(144)]
    + ImageBlock(cfg.coverLogo, decode, CoverLogo)
    + ImageBlock(cfg.coverImage, decode, CoverImage)
    + [Paragraph(CoverTitleText(cfg, space), CoverTitle)]
    + SubtitleBlock(cfg, space)
    + [Spacer(72)]
    + MetaBlock(MetaLines(cfg, org, dateText))
    + [PageBreak]
  }

  /** On the cover, a 300 by 200 pixel logo is drawn 216 by 144 points,
      taller than the 108-point box. */
  lemma CoverLogoOverflows(data: Bytes, decode: Decoder)
    requires data != [] && decode(data) == Some(Dims(300, 200))
    ensures ImageBlock(data, decode, CoverLogo) == [Image(CoverLogo, 216.0, 144.0), Spacer(36)]
    ensures 144.0 > LogoMaxHeight
  {
    LogoAsWrittenOverflows();
  }

  /** A decoded logo whose size as written already fits the box is drawn
      at the corrected size. */
  lemma CoverLogoAgrees(data: Bytes, decode: Decoder)
    requires data != [] && decode(data).Some? && decode(data).value.height > 0
    requires LogoFitAsWritten(decode(data).value.width as real, decode(data).value.height as real).height <= LogoMaxHeight
    ensures var f := LogoFit(decode(data).value.width as real, decode(data).value.height as real);
      ImageBlock(data, decode, CoverLogo) == [Image(CoverLogo, f.width, f.height), Spacer(36)]
  {
    LogoFitAgrees(decode(data).value.width as real, decode(data).value.height as real);
  }

  /** An uploaded image adds only an image and a spacer. */
  lemma ImageBlockShape(data: Bytes, decode: Decoder, slot: ImageSlot)
    ensures forall x :: x in ImageBlock(data, decode, slot) ==> x.Image? || x == Spacer(36)
  {
  }

  /** `Count` over the cover is the sum over its parts. */
  lemma CoverCount(cfg: Config, space: Dict, org: Option<Dict>, dateText: string, decode: Decoder, P: Element -> bool)
    requires !P(Spacer(144)) && !P(Spacer(72)) && !P(Spacer(36))
    requires forall s, w, h :: !P(Image(s, w, h))
    ensures Count(CoverElements(cfg, space, org, dateText, decode), P) ==
      Count([Paragraph(CoverTitleText(cfg, space), CoverTitle)], P)
      + Count(SubtitleBlock(cfg, space), P)
      + Count(MetaBlock(MetaLines(cfg, org, dateText)), P)
      + Count([PageBreak], P)
  {
    var logo := ImageBlock(cfg.coverLogo, decode, CoverLogo);
    var image := ImageBlock(cfg.coverImage, decode, CoverImage);
    var title := [Paragraph(CoverTitleText(cfg, space), CoverTitle)];
    var sub := SubtitleBlock(cfg, space);
    var meta := MetaBlock(MetaLines(cfg, org, dateText));
    ImageBlockShape(cfg.coverLogo, decode, CoverLogo);
    ImageBlockShape(cfg.coverImage, decode, CoverImage);
    CountNone([Spacer(144)], P);
    CountNone([Spacer(72)], P);
    CountNone(logo, P);
    CountNone(image, P);
    CountSplit8([Spacer(144)], logo, image, title, sub, [Spacer(72)], meta, [PageBreak], P);
  }

  /** Every element of the cover is a spacer, an image, the page break, the
      title paragraph, or part of the subtitle or meta block. */
  lemma CoverMembers(cfg: Config, space: Dict, org: Option<Dict>, dateText: string, decode: Decoder)
    ensures forall x :: x in CoverElements(cfg, space, org, dateText, decode) ==>
      x.Spacer? || x.Image? || x == PageBreak || x == Paragraph(CoverTitleText(cfg, space), CoverTitle)
      || x in SubtitleBlock(cfg, space) || x in MetaBlock(MetaLines(cfg, org, dateText))
  {
    ImageBlockShape(cfg.coverLogo, decode, CoverLogo);
    ImageBlockShape(cfg.coverImage, decode, CoverImage);
  }

  predicate IsTitleParagraph(x: Element) {
    x.Paragraph? && x.style == CoverTitle
  }

  predicate IsSubtitleParagraph(x: Element) {
    x.Paragraph? && x.style == CoverSubtitle
  }

  predicate IsMetaParagraph(x: Element) {
    x.Paragraph? && x.style == CoverMeta
  }

  /** The cover opens with two inches of space and ends with its only page
      break; it never holds a `CondPageBreak`. */
  lemma CoverEndsWithPageBreak(cfg: Config, space: Dict, org: Option<Dict>, dateText: string, decode: Decoder)
    ensures var c := CoverElements(cfg, space, org, dateText, decode);
      c[0] == Spacer(144) && c[|c| - 1] == PageBreak
      && Count(c, IsPageBreak) == 1 && Count(c, IsCondPageBreak) == 0
  {
    var c := CoverElements(cfg, space, org, dateText, decode);
    var sub := SubtitleBlock(cfg, space);
    var meta := MetaBlock(MetaLines(cfg, org, dateText));
    assert Count(c, IsPageBreak) == 1 by {
      CoverCount(cfg, space, org, dateText, decode, IsPageBreak);
      CountNone(sub, IsPageBreak);
      CountNone(meta, IsPageBreak);
    }
    assert Count(c, IsCondPageBreak) == 0 by {
      CoverCount(cfg, space, org, dateText, decode, IsCondPageBreak);
      CountNone(sub, IsCondPageBreak);
      CountNone(meta, IsCondPageBreak);
    }
  }

  /** The cover has exactly one title paragraph, holding the resolved title. */
  lemma CoverTitleOnce(cfg: Config, space: Dict, org: Option<Dict>, dateText: string, decode: Decoder)
    ensures var c := CoverElements(cfg, space, org, dateText, decode);
      Count(c, IsTitleParagraph) == 1
      && forall x :: x in c && IsTitleParagraph(x) ==> x.text == CoverTitleText(cfg, space)
  {
    var c := CoverElements(cfg, space, org, dateText, decode);
    assert Count(c, IsTitleParagraph) == 1 by {
      CoverCount(cfg, space, org, dateText, decode, IsTitleParagraph);
      CountNone(SubtitleBlock(cfg, space), IsTitleParagraph);
      CountNone(MetaBlock(MetaLines(cfg, org, dateText)), IsTitleParagraph);
    }
    assert forall x :: x in c && IsTitleParagraph(x) ==> x.text == CoverTitleText(cfg, space) by {
      CoverMembers(cfg, space, org, dateText, decode);
    }
  }

  /** There is one subtitle paragraph exactly when a subtitle is configured
      or the space has a description, and the configured one takes precedence. */
  lemma CoverSubtitleRule(cfg: Config, space: Dict, org: Option<Dict>, dateText: string, decode: Decoder)
    ensures var c := CoverElements(cfg, space, org, dateText, decode);
      Count(c, IsSubtitleParagraph) == (if cfg.coverSubtitle != "" || Get(space, "description", "") != "" then 1 else 0)
      && forall x :: x in c && IsSubtitleParagraph(x) ==>
        x.text == (if cfg.coverSubtitle != "" then cfg.coverSubtitle else space["description"])
  {
    var c := CoverElements(cfg, space, org, dateText, decode);
    var sub := SubtitleBlock(cfg, space);
    assert Count(c, IsSubtitleParagraph) == Count(sub, IsSubtitleParagraph) by {
      CoverCount(cfg, space, org, dateText, decode, IsSubtitleParagraph);
      CountNone(MetaBlock(MetaLines(cfg, org, dateText)), IsSubtitleParagraph);
    }
    assert forall x :: x in c && IsSubtitleParagraph(x) ==> x in sub by {
      CoverMembers(cfg, space, org, dateText, decode);
    }
    if cfg.coverSubtitle != "" {
      assert sub == [Paragraph(cfg.coverSubtitle, CoverSubtitle)];
      assert Count(sub, IsSubtitleParagraph) == 1;
    } else if Get(space, "description", "") != "" {
      assert sub == [Paragraph(space["description"], CoverSubtitle)];
      assert Count(sub, IsSubtitleParagraph) == 1;
    } else {
      assert sub == [];
    }
  }

  /** There is one meta paragraph exactly when some meta line applies: the
      version is shown and set, the date is shown, or a publisher is known. */
  lemma CoverMetaRule(cfg: Config, space: Dict, org: Option<Dict>, dateText: string, decode: Decoder)
    ensures var c := CoverElements(cfg, space, org, dateText, decode);
      Count(c, IsMetaParagraph) == (if ShowsVersion(cfg) || cfg.showDate || HasPublisher(org) then 1 else 0)
  {
    var c := CoverElements(cfg, space, org, dateText, decode);
    var lines := MetaLines(cfg, org, dateText);
    assert Count(c, IsMetaParagraph) == Count(MetaBlock(lines), IsMetaParagraph) by {
      CoverCount(cfg, space, org, dateText, decode, IsMetaParagraph);
      CountNone(SubtitleBlock(cfg, space), IsMetaParagraph);
    }
    assert lines != [] <==> ShowsVersion(cfg) || cfg.showDate || HasPublisher(org);
  }
}
