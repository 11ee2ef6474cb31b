/**
 * The PDF import pipeline (`loadPdf` and `checkForColor` in src/utils/file.ts): pages are rendered
 * one after another on one shared canvas, a page that fails is skipped, the survivors are stacked
 * top to bottom with a 32-unit gap and finally centred on the widest page.
 *
 * Decoding and rasterisation belong to the PDF library and are an oracle here: for each page it
 * yields either a failure or the page's natural size (its viewport at scale 1), the RGBA bytes that
 * reading back the centre sample block of the canvas gives (or nothing when that read throws), and
 * the identity of the encoded raster.
 */
module PdfImport {
  import opened Wrappers
  import opened Geometry
  import opened Canvas

  datatype PageOutcome =
    | Rendered(natural: Size, imageData: Option<seq<int>>, raster: nat)
    | Failed

  /** The two browser globals the pipeline reads. */
  datatype Window = Window(innerWidth: real, devicePixelRatio: real)

  datatype PdfPage = PdfPage(src: DataUrl, bounds: Box, assetId: AssetId, shapeId: ShapeId)

  datatype Pdf = Pdf(name: string, pages: seq<PdfPage>)

  datatype LoadError = DecodeFailed | NoCanvasContext

  const PageSpacing: real := 32.0
  const BundledWorkerSrc: string := "pdfjs-dist/build/pdf.worker.js"

  // ---------------------------------------------------------------------------------------------
  // Sizing policy

  predicate IsMobile(w: Window) { w.innerWidth < 1024.0 }

  /** The scales `loadPdf` derives once, before the page loop. */
  datatype Scales = Scales(device: real, visual: real, maxDimension: real)

  /**
   * The device pixel ratio; the requested resolution, capped at 1.0 on a narrow window; and the
   * largest canvas side allowed, 2048 on a narrow window and 4096 otherwise.
   */
  function ScalesFor(w: Window, resolution: real): (sc: Scales)
    ensures sc.device == w.devicePixelRatio
    ensures IsMobile(w) ==> sc.visual <= 1.0 && sc.visual <= resolution && (sc.visual == resolution || sc.visual == 1.0)
    ensures !IsMobile(w) ==> sc.visual == resolution
    ensures resolution >= 0.0 ==> sc.visual >= 0.0
    ensures sc.maxDimension == 2048.0 || sc.maxDimension == 4096.0
    ensures sc.maxDimension == 2048.0 <==> IsMobile(w)
  {
    var mobile := IsMobile(w);
    Scales(w.devicePixelRatio, if mobile then Min(resolution, 1.0) else resolution, if mobile then 2048.0 else 4096.0)
  }

  function Viewport(natural: Size, scale: real): Size {
    Size(natural.width * scale, natural.height * scale)
  }

  /**
   * `Math.min(1, maxDimension / Math.max(width, height))`; an empty viewport divides by zero,
   * giving Infinity and so 1.
   */
  function CanvasScale(viewport: Size, maxDimension: real): real {
    var m := Max(viewport.width, viewport.height);
    if m == 0.0 then 1.0 else Min(1.0, maxDimension / m)
  }

  /**
   * The canvas (the viewport times this scale) never exceeds `maxDimension` on either side, is
   * never larger than the viewport, and is shrunk only as far as needed.
   */
  lemma CanvasScaleBounds(viewport: Size, maxDimension: real)
    requires maxDimension > 0.0 && viewport.width >= 0.0 && viewport.height >= 0.0
    ensures var r := CanvasScale(viewport, maxDimension);
      0.0 < r <= 1.0 &&
      viewport.width * r <= maxDimension && viewport.height * r <= maxDimension &&
      viewport.width * r <= viewport.width && viewport.height * r <= viewport.height &&
      (r < 1.0 ==> Max(viewport.width, viewport.height) * r == maxDimension)
  {
    var r := CanvasScale(viewport, maxDimension);
    CanvasScaleFits(viewport, maxDimension);
    MulAtMostOne(viewport.width, r);
    MulAtMostOne(viewport.height, r);
  }

  lemma MulAtMostOne(a: real, r: real)
    requires a >= 0.0 && r <= 1.0
    ensures a * r <= a
  {
    assert a * (1.0 - r) >= 0.0;
  }

  lemma CanvasScaleFits(viewport: Size, maxDimension: real)
    requires maxDimension > 0.0 && viewport.width >= 0.0 && viewport.height >= 0.0
    ensures var r := CanvasScale(viewport, maxDimension);
      0.0 < r <= 1.0 &&
      viewport.width * r <= maxDimension && viewport.height * r <= maxDimension &&
      (r < 1.0 ==> Max(viewport.width, viewport.height) * r == maxDimension)
  {
    var m := Max(viewport.width, viewport.height);
    if m > 0.0 {
      var q := maxDimension / m;
      assert q * m == maxDimension;
      if q < 1.0 {
        assert viewport.width * q <= m * q;
        assert viewport.height * q <= m * q;
      } else {
        assert m * (q - 1.0) >= 0.0;
      }
    }
  }

  // ---------------------------------------------------------------------------------------------
  // Colour sampling

  function Byte(data: seq<int>, i: int): Option<int> {
    if 0 <= i < |data| then Some(data[i]) else None
  }

  function Abs(x: int): int { if x < 0 then -x else x }

  /** `Math.abs(a - b) > 5`; false when a channel lies past the end (the difference is NaN). */
  predicate Differs(a: Option<int>, b: Option<int>) {
    a.Some? && b.Some? && Abs(a.value - b.value) > 5
  }

  /** The pixel whose red byte is at offset `i` is coloured: two of its R, G, B differ by more than 5. */
  predicate IsColorPixel(data: seq<int>, i: int) {
    var r, g, b := Byte(data, i), Byte(data, i + 1), Byte(data, i + 2);
    Differs(r, g) || Differs(r, b) || Differs(g, b)
  }

  /** Number of offsets 0, 16, 32, ... below the length of the data. */
  function SampleCount(data: seq<int>): nat { (|data| + 15) / 16 }

  /** How many of the first `n` samples (offsets 0, 16, ..., 16(n-1)) are coloured. */
  function ColoredSamples(data: seq<int>, n: nat): (r: nat)
    ensures r <= n
  {
    if n == 0 then 0 else ColoredSamples(data, n - 1) + (if IsColorPixel(data, 16 * (n - 1)) then 1 else 0)
  }

  /** More than 5% of the samples are coloured, measured against `data.length / 16`. */
  predicate HasColor(data: seq<int>) {
    ColoredSamples(data, SampleCount(data)) as real > (|data| as real / 16.0) * 0.05
  }

  /** A coloured page is encoded as JPEG at quality 0.85, any other as PNG. */
  function FormatFor(hasColor: bool): ImageFormat {
    if hasColor then Jpeg(0.85) else Png
  }

  /**
   * Inspects every 16th byte (every 4th RGBA pixel) of the sampled block and answers whether
   * the block counts as coloured; a failed read of the block answers false.
   */
  method CheckForColor(imageData: Option<seq<int>>) returns (hasColor: bool)
    ensures hasColor <==> imageData.Some? && HasColor(imageData.value)
  {
    if imageData.None? {
      return false;
    }
    var data := imageData.value;
    var coloredPixels := 0;
    var i := 0;
    while i < |data|
      invariant 0 <= i < |data| + 16 && i % 16 == 0
      invariant coloredPixels == ColoredSamples(data, i / 16)
    {
      var r, g, b := Byte(data, i), Byte(data, i + 1), Byte(data, i + 2);
      if Differs(r, g) || Differs(r, b) || Differs(g, b) {
        coloredPixels := coloredPixels + 1;
      }
      assert (i + 16) / 16 == i / 16 + 1 && 16 * (i / 16) == i;
      i := i + 16;
    }
    assert i / 16 == SampleCount(data);
    hasColor := coloredPixels as real > (|data| as real / 16.0) * 0.05;
  }

  /** The pixel at `4 * p` has equal red, green and blue, as far as the data reaches. */
  predicate GrayPixel(data: seq<int>, p: nat) {
    (4 * p + 1 < |data| ==> data[4 * p] == data[4 * p + 1]) &&
    (4 * p + 2 < |data| ==> data[4 * p + 1] == data[4 * p + 2])
  }

  /** A grayscale block (R = G = B in every pixel) never counts as coloured. */
  lemma GrayscaleIsNotColor(data: seq<int>)
    requires forall p: nat :: GrayPixel(data, p)
    ensures !HasColor(data)
  {
    GrayscaleSamples(data, SampleCount(data));
  }

  lemma {:induction false} GrayscaleSamples(data: seq<int>, n: nat)
    requires forall p: nat :: GrayPixel(data, p)
    ensures ColoredSamples(data, n) == 0
  {
    if n > 0 {
      GrayscaleSamples(data, n - 1);
      var p := 4 * (n - 1);
      assert GrayPixel(data, p);
      assert 4 * p == 16 * (n - 1);
    }
  }

  /** A non-empty block whose every sample is coloured does count as coloured. */
  lemma ColoredBlockIsColor(data: seq<int>)
    requires |data| > 0
    requires forall k :: 0 <= k < SampleCount(data) ==> IsColorPixel(data, 16 * k)
    ensures HasColor(data)
  {
    AllSamplesColored(data, SampleCount(data));
    var n := SampleCount(data);
    assert 16 * n >= |data|;
    assert n as real >= |data| as real / 16.0;
  }

  lemma {:induction false} AllSamplesColored(data: seq<int>, n: nat)
    requires forall k :: 0 <= k < n ==> IsColorPixel(data, 16 * k)
    ensures ColoredSamples(data, n) == n
  {
    if n > 0 {
      AllSamplesColored(data, n - 1);
    }
  }

  // ---------------------------------------------------------------------------------------------
  // Which pages survive

  /** The pages that rendered, in page order. */
  function Successes(outs: seq<PageOutcome>): (r: seq<PageOutcome>)
    ensures |r| <= |outs|
    ensures forall k :: 0 <= k < |r| ==> r[k].Rendered?
  {
    if outs == [] then []
    else Successes(outs[..|outs| - 1]) + (if outs[|outs| - 1].Rendered? then [outs[|outs| - 1]] else [])
  }

  /** Positions (0-based) of the pages that rendered, in page order. */
  function Survivors(outs: seq<PageOutcome>): seq<nat> {
    if outs == [] then []
    else Survivors(outs[..|outs| - 1]) + (if outs[|outs| - 1].Rendered? then [|outs| - 1] else [])
  }

  lemma SuccessesAppend(s: seq<PageOutcome>, o: PageOutcome)
    ensures Successes(s + [o]) == Successes(s) + (if o.Rendered? then [o] else [])
  {
    assert (s + [o])[..|s + [o]| - 1] == s;
  }

  /**
   * Exactly the rendered pages survive, in page order: the k-th survivor is page
   * `Survivors(outs)[k]`, those positions increase, and every rendered page is among them.
   */
  lemma {:induction false} SurvivorFacts(outs: seq<PageOutcome>)
    ensures var sv := Survivors(outs);
      |sv| == |Successes(outs)| &&
      (forall k :: 0 <= k < |sv| ==> sv[k] < |outs| && Successes(outs)[k] == outs[sv[k]]) &&
      (forall j, k :: 0 <= j < k < |sv| ==> sv[j] < sv[k]) &&
      (forall i :: 0 <= i < |outs| && outs[i].Rendered? ==> i in sv)
  {
    if outs != [] {
      var init := outs[..|outs| - 1];
      SurvivorFacts(init);
      assert forall i :: 0 <= i < |init| ==> init[i] == outs[i];
    }
  }

  lemma {:induction false} SuccessesConcat(a: seq<PageOutcome>, b: seq<PageOutcome>)
    ensures Successes(a + b) == Successes(a) + Successes(b)
  {
    if b != [] {
      var init := b[..|b| - 1];
      SuccessesConcat(a, init);
      assert (a + b)[..|a + b| - 1] == a + init;
      assert (a + b)[|a + b| - 1] == b[|b| - 1];
      assert Successes(a + b) == Successes(a + init) + (if b[|b| - 1].Rendered? then [b[|b| - 1]] else []);
      assert Successes(b) == Successes(init) + (if b[|b| - 1].Rendered? then [b[|b| - 1]] else []);
    } else {
      assert a + b == a;
    }
  }

  // ---------------------------------------------------------------------------------------------
  // Arranging the surviving pages: stacked top-down, then centred on the widest

  /** Total height taken by `sizes` stacked with `gap` after each. */
  function StackHeight(sizes: seq<Size>, gap: real): real {
    if sizes == [] then 0.0 else StackHeight(sizes[..|sizes| - 1], gap) + sizes[|sizes| - 1].height + gap
  }

  /** The widest width among `sizes`, or 0 when there is none. */
  function Widest(sizes: seq<Size>): real {
    if sizes == [] then 0.0 else Max(Widest(sizes[..|sizes| - 1]), sizes[|sizes| - 1].width)
  }

  /** The boxes a page loop assigns: each page at x = 0, `gap` below the pages before it. */
  function Stack(sizes: seq<Size>, gap: real): (r: seq<Box>)
    ensures |r| == |sizes|
  {
    seq(|sizes|, k requires 0 <= k < |sizes| => Box(0.0, StackHeight(sizes[..k], gap), sizes[k].width, sizes[k].height))
  }

  /** The centring pass: each box moved so its middle lies at `widest / 2`. */
  function Centre(boxes: seq<Box>, widest: real): (r: seq<Box>)
    ensures |r| == |boxes|
  {
    seq(|boxes|, k requires 0 <= k < |boxes| => boxes[k].(x := (widest - boxes[k].w) / 2.0))
  }

  function Arrange(sizes: seq<Size>): (r: seq<Box>)
    ensures |r| == |sizes|
  {
    Centre(Stack(sizes, PageSpacing), Widest(sizes))
  }

  lemma StackAppend(sizes: seq<Size>, s: Size, gap: real)
    ensures StackHeight(sizes + [s], gap) == StackHeight(sizes, gap) + s.height + gap
    ensures Widest(sizes + [s]) == Max(Widest(sizes), s.width)
    ensures Stack(sizes + [s], gap) == Stack(sizes, gap) + [Box(0.0, StackHeight(sizes, gap), s.width, s.height)]
  {
    var t := sizes + [s];
    assert t[..|t| - 1] == sizes;
    forall k | 0 <= k < |sizes| ensures t[..k] == sizes[..k] { }
  }

  lemma {:induction false} WidestBound(sizes: seq<Size>)
    ensures Widest(sizes) >= 0.0
    ensures forall k :: 0 <= k < |sizes| ==> sizes[k].width <= Widest(sizes)
    ensures |sizes| > 0 && (forall k :: 0 <= k < |sizes| ==> sizes[k].width >= 0.0) ==>
      exists k :: 0 <= k < |sizes| && sizes[k].width == Widest(sizes)
  {
    if sizes != [] {
      var init := sizes[..|sizes| - 1];
      WidestBound(init);
      assert forall k :: 0 <= k < |init| ==> init[k] == sizes[k];
      if |sizes| > 0 && (forall k :: 0 <= k < |sizes| ==> sizes[k].width >= 0.0) {
        if Widest(sizes) != sizes[|sizes| - 1].width {
          assert init != [];
          var k :| 0 <= k < |init| && init[k].width == Widest(init);
          assert sizes[k].width == Widest(sizes);
        }
      }
    }
  }

  /**
   * Stacked pages sit at x = 0 and keep their sizes; the first starts at y = 0 and each next one
   * starts `gap` units below the bottom of the previous one.
   */
  lemma StackSpacing(sizes: seq<Size>, gap: real)
    ensures var b := Stack(sizes, gap);
      (forall k :: 0 <= k < |b| ==> b[k].x == 0.0 && b[k].w == sizes[k].width && b[k].h == sizes[k].height) &&
      (|b| > 0 ==> b[0].y == 0.0) &&
      (forall k :: 0 <= k < |b| - 1 ==> b[k + 1].y == b[k].y + b[k].h + gap)
  {
    var b := Stack(sizes, gap);
    forall k | 0 <= k < |b| - 1
      ensures b[k + 1].y == b[k].y + b[k].h + gap
    {
      assert sizes[..k + 1] == sizes[..k] + [sizes[k]];
      StackAppend(sizes[..k], sizes[k], gap);
    }
  }

  /** Arranged pages keep their sizes and the vertical spacing of the stack (32 units). */
  lemma ArrangeStacksPages(sizes: seq<Size>)
    ensures var b := Arrange(sizes);
      (forall k :: 0 <= k < |b| ==> b[k].w == sizes[k].width && b[k].h == sizes[k].height) &&
      (|b| > 0 ==> b[0].y == 0.0) &&
      (forall k :: 0 <= k < |b| - 1 ==> b[k + 1].y == b[k].y + b[k].h + PageSpacing)
  {
    StackSpacing(sizes, PageSpacing);
  }

  /**
   * Arranged pages share one vertical centre line at half the widest width, none starts left of
   * 0, and when no width is negative the widest page starts at 0.
   */
  lemma ArrangeCentresPages(sizes: seq<Size>)
    ensures var b := Arrange(sizes);
      (forall k :: 0 <= k < |b| ==> b[k].x >= 0.0 && b[k].x + b[k].w / 2.0 == Widest(sizes) / 2.0) &&
      (|b| > 0 && (forall k :: 0 <= k < |sizes| ==> sizes[k].width >= 0.0) ==>
        exists k :: 0 <= k < |b| && b[k].x == 0.0)
  {
    WidestBound(sizes);
    var b := Arrange(sizes);
    if |b| > 0 && (forall k :: 0 <= k < |sizes| ==> sizes[k].width >= 0.0) {
      var k :| 0 <= k < |sizes| && sizes[k].width == Widest(sizes);
      assert b[k].x == 0.0;
    }
  }

  // ---------------------------------------------------------------------------------------------
  // Page records

  /** The scale the page is rendered at: device pixels per unit times the visual scale. */
  function EffectiveScale(sc: Scales): real {
    sc.device * sc.visual
  }

  /**
   * The page's size on the canvas: its natural size times the visual scale. The page loop gets
   * there by dividing the device-pixel viewport by the device pixel ratio (see `RenderPage`).
   */
  function BoundsSize(o: PageOutcome, sc: Scales): Size
    requires o.Rendered?
  {
    Size(o.natural.width * sc.visual, o.natural.height * sc.visual)
  }

  function BoundsSizes(succ: seq<PageOutcome>, sc: Scales): (r: seq<Size>)
    requires forall k :: 0 <= k < |succ| ==> succ[k].Rendered?
    ensures |r| == |succ|
  {
    seq(|succ|, k requires 0 <= k < |succ| => BoundsSize(succ[k], sc))
  }

  function CanvasSize(o: PageOutcome, sc: Scales): Size
    requires o.Rendered?
  {
    var vp := Viewport(o.natural, EffectiveScale(sc));
    var s := CanvasScale(vp, sc.maxDimension);
    Size(vp.width * s, vp.height * s)
  }

  /** The page image: JPEG when the sampled block is coloured, PNG otherwise, from the clamped canvas. */
  function Encoded(o: PageOutcome, sc: Scales): DataUrl
    requires o.Rendered?
  {
    DataUrl(o.raster, FormatFor(o.imageData.Some? && HasColor(o.imageData.value)), CanvasSize(o, sc))
  }

  /** Records for the surviving pages placed in `boxes`, with the k-th fresh pair of identifiers. */
  function Records(succ: seq<PageOutcome>, sc: Scales, boxes: seq<Box>, firstId: nat): (r: seq<PdfPage>)
    requires forall k :: 0 <= k < |succ| ==> succ[k].Rendered?
    requires |boxes| == |succ|
    ensures |r| == |succ|
  {
    seq(|succ|, k requires 0 <= k < |succ| =>
      PdfPage(Encoded(succ[k], sc), boxes[k], AssetId(firstId + k), ShapeId(firstId + k)))
  }

  /** The pages `loadPdf` returns. */
  function Layout(outs: seq<PageOutcome>, sc: Scales, firstId: nat): (r: seq<PdfPage>)
    ensures |r| == |Successes(outs)|
  {
    var succ := Successes(outs);
    Records(succ, sc, Arrange(BoundsSizes(succ, sc)), firstId)
  }

  lemma RecordsAppend(succ: seq<PageOutcome>, o: PageOutcome, sc: Scales, boxes: seq<Box>, b: Box, firstId: nat)
    requires forall k :: 0 <= k < |succ| ==> succ[k].Rendered?
    requires o.Rendered? && |boxes| == |succ|
    ensures BoundsSizes(succ + [o], sc) == BoundsSizes(succ, sc) + [BoundsSize(o, sc)]
    ensures Records(succ + [o], sc, boxes + [b], firstId) ==
      Records(succ, sc, boxes, firstId) + [PdfPage(Encoded(o, sc), b, AssetId(firstId + |succ|), ShapeId(firstId + |succ|))]
  {
  }

  /** Moving each record's box horizontally is the centring pass applied to the boxes. */
  lemma RecordsCentred(succ: seq<PageOutcome>, sc: Scales, boxes: seq<Box>, widest: real, firstId: nat)
    requires forall k :: 0 <= k < |succ| ==> succ[k].Rendered?
    requires |boxes| == |succ|
    ensures Recentred(Records(succ, sc, boxes, firstId), widest) == Records(succ, sc, Centre(boxes, widest), firstId)
  {
  }

  /** Each page record with its box moved to be centred on `widest`. */
  function Recentred(pages: seq<PdfPage>, widest: real): (r: seq<PdfPage>)
    ensures |r| == |pages|
  {
    seq(|pages|, k requires 0 <= k < |pages| =>
      pages[k].(bounds := pages[k].bounds.(x := (widest - pages[k].bounds.w) / 2.0)))
  }

  lemma RatioCancels(n: real, d: real, v: real)
    requires d > 0.0
    ensures n * (d * v) / d == n * v
  {
    assert n * (d * v) == (n * v) * d;
  }

  /** Dividing the device-pixel viewport by the device pixel ratio gives the page's bounds size. */
  lemma DeviceRatioCancels(o: PageOutcome, sc: Scales)
    requires o.Rendered? && sc.device > 0.0
    ensures Viewport(o.natural, EffectiveScale(sc)).width / sc.device == BoundsSize(o, sc).width
    ensures Viewport(o.natural, EffectiveScale(sc)).height / sc.device == BoundsSize(o, sc).height
  {
    RatioCancels(o.natural.width, sc.device, sc.visual);
    RatioCancels(o.natural.height, sc.device, sc.visual);
  }

  /**
   * Renders one page and builds its record at height `top`. Its bounds come out as the natural
   * size times the visual scale: the device pixel ratio cancels and the canvas clamp does not
   * shrink them.
   */
  method RenderPage(o: PageOutcome, sc: Scales, top: real, id: nat) returns (page: PdfPage)
    requires o.Rendered? && sc.device > 0.0
    ensures page == PdfPage(Encoded(o, sc), Box(0.0, top, BoundsSize(o, sc).width, BoundsSize(o, sc).height),
      AssetId(id), ShapeId(id))
  {
    var scale := sc.device;
    var viewport := Viewport(o.natural, EffectiveScale(sc));
    var canvasScale := CanvasScale(viewport, sc.maxDimension);
    var hasColor := CheckForColor(o.imageData);
    var src := DataUrl(o.raster, FormatFor(hasColor), Size(viewport.width * canvasScale, viewport.height * canvasScale));
    assert src == Encoded(o, sc);
    var width := viewport.width / scale;
    var height := viewport.height / scale;
    DeviceRatioCancels(o, sc);
    page := PdfPage(src, Box(0.0, top, width, height), AssetId(id), ShapeId(id));
  }

  /** The centring pass over the stacked pages. */
  method CentrePages(pages: seq<PdfPage>, widest: real) returns (r: seq<PdfPage>)
    ensures r == Recentred(pages, widest)
  {
    r := pages;
    var k := 0;
    while k < |r|
      invariant 0 <= k <= |r| == |pages|
      invariant forall j :: 0 <= j < k ==> r[j] == pages[j].(bounds := pages[j].bounds.(x := (widest - pages[j].bounds.w) / 2.0))
      invariant forall j :: k <= j < |r| ==> r[j] == pages[j]
    {
      r := r[k := r[k].(bounds := r[k].bounds.(x := (widest - r[k].bounds.w) / 2.0))];
      k := k + 1;
    }
  }

  /**
   * The body of `loadPdf` after the document is open: the page loop (a failing page is skipped),
   * then the centring pass.
   */
  method LoadPages(name: string, outs: seq<PageOutcome>, sc: Scales, firstId: nat)
    returns (pdf: Pdf)
    requires sc.device > 0.0
    ensures pdf == Pdf(name, Layout(outs, sc, firstId))
  {
    var top := 0.0;
    var widest := 0.0;
    var pages: seq<PdfPage> := [];
    ghost var succ: seq<PageOutcome> := [];
    var i := 1;
    while i <= |outs|
      invariant 1 <= i <= |outs| + 1
      invariant succ == Successes(outs[..i - 1])
      invariant pages == Records(succ, sc, Stack(BoundsSizes(succ, sc), PageSpacing), firstId)
      invariant top == StackHeight(BoundsSizes(succ, sc), PageSpacing)
      invariant widest == Widest(BoundsSizes(succ, sc))
    {
      var o := outs[i - 1];
      assert outs[..i] == outs[..i - 1] + [o];
      SuccessesAppend(outs[..i - 1], o);
      if o.Rendered? {
        var page := RenderPage(o, sc, top, firstId + |pages|);
        ghost var sizes := BoundsSizes(succ, sc);
        StackAppend(sizes, BoundsSize(o, sc), PageSpacing);
        RecordsAppend(succ, o, sc, Stack(sizes, PageSpacing), page.bounds, firstId);
        pages := pages + [page];
        top := top + page.bounds.h + PageSpacing;
        widest := Max(widest, page.bounds.w);
        succ := succ + [o];
      }
      i := i + 1;
    }
    assert outs[..i - 1] == outs;
    RecordsCentred(succ, sc, Stack(BoundsSizes(succ, sc), PageSpacing), widest, firstId);
    pages := CentrePages(pages, widest);
    pdf := Pdf(name, pages);
  }

  // ---------------------------------------------------------------------------------------------
  // Properties of the layout

  /** Every page the library rendered has a non-negative natural size. */
  predicate WellSized(outs: seq<PageOutcome>) {
    forall i :: 0 <= i < |outs| && outs[i].Rendered? ==>
      outs[i].natural.width >= 0.0 && outs[i].natural.height >= 0.0
  }

  /**
   * The laid-out pages are stacked: the first starts at y = 0, each next one 32 units below the
   * previous one, all share one vertical centre line, and none starts left of 0.
   */
  lemma LayoutStacksAndCentres(outs: seq<PageOutcome>, sc: Scales, firstId: nat)
    ensures var l := Layout(outs, sc, firstId);
      (|l| > 0 ==> l[0].bounds.y == 0.0) &&
      (forall k :: 0 <= k < |l| - 1 ==> l[k + 1].bounds.y == l[k].bounds.y + l[k].bounds.h + PageSpacing) &&
      (forall j, k :: 0 <= j < |l| && 0 <= k < |l| ==>
        l[j].bounds.x + l[j].bounds.w / 2.0 == l[k].bounds.x + l[k].bounds.w / 2.0) &&
      (forall k :: 0 <= k < |l| ==> l[k].bounds.x >= 0.0)
  {
    var sizes := BoundsSizes(Successes(outs), sc);
    ArrangeStacksPages(sizes);
    ArrangeCentresPages(sizes);
  }

  /**
   * The k-th laid-out page is the k-th surviving page (see `SurvivorFacts` for which pages those
   * are), sized at its natural size times the visual scale, with the k-th fresh identifiers.
   */
  lemma LayoutFollowsSurvivors(outs: seq<PageOutcome>, sc: Scales, firstId: nat)
    ensures var l := Layout(outs, sc, firstId);
      var succ := Successes(outs);
      |l| == |succ| &&
      forall k :: 0 <= k < |l| ==>
        l[k].src.raster == succ[k].raster &&
        l[k].bounds.w == BoundsSize(succ[k], sc).width &&
        l[k].bounds.h == BoundsSize(succ[k], sc).height &&
        l[k].assetId == AssetId(firstId + k) && l[k].shapeId == ShapeId(firstId + k)
  {
    var l := Layout(outs, sc, firstId);
    var succ := Successes(outs);
    var sizes := BoundsSizes(succ, sc);
    ArrangeStacksPages(sizes);
    forall k | 0 <= k < |l|
      ensures l[k].src.raster == succ[k].raster
      ensures l[k].bounds.w == BoundsSize(succ[k], sc).width
      ensures l[k].bounds.h == BoundsSize(succ[k], sc).height
      ensures l[k].assetId == AssetId(firstId + k) && l[k].shapeId == ShapeId(firstId + k)
    {
      LayoutPage(outs, sc, firstId, k);
    }
  }

  /** The k-th laid-out page, spelled out. */
  lemma LayoutPage(outs: seq<PageOutcome>, sc: Scales, firstId: nat, k: nat)
    requires k < |Successes(outs)|
    ensures var succ := Successes(outs);
      var sizes := BoundsSizes(succ, sc);
      var p := Layout(outs, sc, firstId)[k];
      p.src == Encoded(succ[k], sc) && p.bounds == Arrange(sizes)[k] &&
      sizes[k] == BoundsSize(succ[k], sc) &&
      p.assetId == AssetId(firstId + k) && p.shapeId == ShapeId(firstId + k)
  {
  }

  /** When the sizes are non-negative, the widest page starts at x = 0. */
  lemma LayoutWidestIsFlush(outs: seq<PageOutcome>, sc: Scales, firstId: nat)
    requires WellSized(outs) && sc.visual >= 0.0
    ensures var l := Layout(outs, sc, firstId);
      |l| > 0 ==> exists k :: 0 <= k < |l| && l[k].bounds.x == 0.0
  {
    var succ := Successes(outs);
    var sizes := BoundsSizes(succ, sc);
    SurvivorFacts(outs);
    forall k | 0 <= k < |sizes| ensures sizes[k].width >= 0.0 {
      assert succ[k] == outs[Survivors(outs)[k]];
      MulNonNegative(succ[k].natural.width, sc.visual);
    }
    ArrangeCentresPages(sizes);
    var l := Layout(outs, sc, firstId);
    if |l| > 0 {
      var k :| 0 <= k < |sizes| && Arrange(sizes)[k].x == 0.0;
      assert l[k].bounds == Arrange(sizes)[k];
    }
  }

  lemma MulNonNegative(a: real, b: real)
    requires a >= 0.0 && b >= 0.0
    ensures a * b >= 0.0
  {
  }

  /** When no page renders the document imports as no pages at all, not as an error. */
  lemma NoPagesWhenAllFail(outs: seq<PageOutcome>, sc: Scales, firstId: nat)
    requires forall i :: 0 <= i < |outs| ==> outs[i].Failed?
    ensures Layout(outs, sc, firstId) == []
  {
    SurvivorFacts(outs);
  }

  /** A page that fails to render leaves the layout exactly as if the document lacked it. */
  lemma FailedPageIsSkipped(a: seq<PageOutcome>, b: seq<PageOutcome>, sc: Scales, firstId: nat)
    ensures Layout(a + [Failed] + b, sc, firstId) == Layout(a + b, sc, firstId)
  {
    SuccessesConcat(a + [Failed], b);
    SuccessesConcat(a, [Failed]);
    SuccessesConcat(a, b);
    assert Successes([Failed]) == [];
    assert Successes(a + [Failed] + b) == Successes(a + b);
  }

  /** The worker-source global of the PDF library, which `loadPdf` sets and restores. */
  class WorkerOptions {
    var workerSrc: string

    constructor (workerSrc: string)
      ensures this.workerSrc == workerSrc
    {
      this.workerSrc := workerSrc;
    }
  }

  /**
   * `loadPdf`: points the library at the bundled worker, opens the document (which may fail),
   * needs a 2D context, lays out the pages, and in every case restores the worker source.
   */
  method LoadPdf(options: WorkerOptions, name: string, document: Option<seq<PageOutcome>>, hasContext: bool,
                 w: Window, resolution: real, firstId: nat)
    returns (r: Result<Pdf, LoadError>)
    requires w.devicePixelRatio > 0.0
    modifies options
    ensures options.workerSrc == old(options.workerSrc)
    ensures r == if document.None? then Failure(DecodeFailed)
                 else if !hasContext then Failure(NoCanvasContext)
                 else Success(Pdf(name, Layout(document.value, ScalesFor(w, resolution), firstId)))
  {
    var originalWorkerSrc := options.workerSrc;
    options.workerSrc := BundledWorkerSrc;
    if document.None? {
      r := Failure(DecodeFailed);
    } else if !hasContext {
      r := Failure(NoCanvasContext);
    } else {
      var pdf := LoadPages(name, document.value, ScalesFor(w, resolution), firstId);
      r := Success(pdf);
    }
    options.workerSrc := originalWorkerSrc;
  }
}
