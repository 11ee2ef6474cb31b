/**
 * The scrolling PDF viewer shape (`PdfViewer`, src/tldraw/PdfViewerShape.tsx): which pages get a
 * canvas and a render, the estimated window of visible pages while scrolling, and the shape's
 * `currentPage` that follows the scroll position.
 *
 * Fetching and drawing a page are an oracle: for each page number, `outcome` says whether the page
 * could not be fetched, was fetched (its viewport height known, its canvas placed) but failed to
 * draw, or was drawn. The effect and the debounced scroll handler each run as one call; the
 * `renderPage` guard reads the set of rendered pages as it was when they started.
 */
module PdfViewer {
  import opened Wrappers

  /** The gap between page canvases. */
  const PageGap: real := 20.0

  datatype RenderOutcome = PageFailed | DrawFailed(height: real) | Drawn(height: real)

  /** `renderPage` goes on only for a page that is not rendered yet and lies in 1..totalPages. */
  predicate ShouldRender(seen: set<int>, page: int, totalPages: nat) {
    !(page in seen || page < 1 || page > totalPages)
  }

  /** The top offset of page `page`'s canvas. */
  function CanvasTop(page: int, height: real): real {
    (page - 1) as real * (height + PageGap)
  }

  /** Canvases of equally tall pages start at 0 and follow each other with the gap between them. */
  lemma CanvasTopsStack(page: int, height: real)
    requires height >= 0.0
    ensures CanvasTop(1, height) == 0.0
    ensures CanvasTop(page + 1, height) == CanvasTop(page, height) + height + PageGap
    ensures CanvasTop(page, height) + height < CanvasTop(page + 1, height)
  {
    assert (page + 1 - 1) as real * (height + PageGap) == (page - 1) as real * (height + PageGap) + (height + PageGap);
  }

  /** The pages the effect asks for, in call order: the current page and its neighbours in range. */
  function InitialTargets(currentPage: int, totalPages: nat): seq<int> {
    if totalPages >= currentPage then
      [currentPage] + (if currentPage > 1 then [currentPage - 1] else []) +
      (if currentPage < totalPages then [currentPage + 1] else [])
    else []
  }

  /** For a current page in range the effect asks for exactly the pages next to it that exist. */
  lemma InitialTargetsAreNeighbours(currentPage: int, totalPages: nat)
    requires 1 <= currentPage <= totalPages
    ensures forall p :: p in InitialTargets(currentPage, totalPages) <==>
      currentPage - 1 <= p <= currentPage + 1 && 1 <= p <= totalPages
  {
  }

  /** Of the pages in `targets`, those that pass the guard and are drawn. */
  function DrawnAmong(targets: seq<int>, seen: set<int>, totalPages: nat, outcome: int -> RenderOutcome): set<int> {
    set p | p in targets && ShouldRender(seen, p, totalPages) && outcome(p).Drawn?
  }

  /** The page itself when it passes the guard and is drawn. */
  function DrawnPage(p: int, seen: set<int>, totalPages: nat, outcome: int -> RenderOutcome): set<int> {
    if ShouldRender(seen, p, totalPages) && outcome(p).Drawn? then {p} else {}
  }

  /** The pages the effect draws, page by page in call order. */
  lemma InitialDrawn(currentPage: int, totalPages: nat, seen: set<int>, outcome: int -> RenderOutcome, base: set<int>)
    ensures base + DrawnAmong(InitialTargets(currentPage, totalPages), seen, totalPages, outcome) ==
      if totalPages >= currentPage then
        var a := base + DrawnPage(currentPage, seen, totalPages, outcome);
        var b := if currentPage > 1 then a + DrawnPage(currentPage - 1, seen, totalPages, outcome) else a;
        if currentPage < totalPages then b + DrawnPage(currentPage + 1, seen, totalPages, outcome) else b
      else base
  {
  }

  /** The canvases the effect places: each target past the guard that was fetched, at its top offset. */
  function PlacedAmong(targets: seq<int>, seen: set<int>, totalPages: nat, outcome: int -> RenderOutcome): map<int, real> {
    map p | p in targets && ShouldRender(seen, p, totalPages) && !outcome(p).PageFailed? :: CanvasTop(p, outcome(p).height)
  }

  /** The canvases placed for pages lo..hi-1: those past the guard that were fetched, at their top offsets. */
  function PlacedBetween(lo: int, hi: int, seen: set<int>, totalPages: nat, outcome: int -> RenderOutcome): map<int, real> {
    map p | lo <= p < hi && ShouldRender(seen, p, totalPages) && !outcome(p).PageFailed? :: CanvasTop(p, outcome(p).height)
  }

  /** Of the pages lo..hi-1, those that pass the guard and are drawn. */
  function DrawnBetween(lo: int, hi: int, seen: set<int>, totalPages: nat, outcome: int -> RenderOutcome): set<int> {
    set p | lo <= p < hi && ShouldRender(seen, p, totalPages) && outcome(p).Drawn?
  }

  /** The estimated height of a page with its gap, from the container's height. */
  function PageHeightEstimate(containerHeight: real): (r: real)
    requires containerHeight >= 0.0
    ensures r >= PageGap
  {
    containerHeight / 1.5 + PageGap
  }

  function Floor(x: real): int {
    x.Floor
  }

  function Ceil(x: real): int {
    -((-x).Floor)
  }

  function MaxInt(a: int, b: int): int { if a >= b then a else b }

  function MinInt(a: int, b: int): int { if a <= b then a else b }

  /** The first and last pages estimated visible, and the range rendered around them. */
  datatype Window = Window(first: int, last: int, lo: int, hi: int)

  function ScrollWindow(scrollTop: real, containerHeight: real, totalPages: nat): (w: Window)
    requires containerHeight >= 0.0
    ensures w.first >= 1 && w.last <= totalPages
    ensures w.lo >= 1 && w.hi <= totalPages
  {
    var pageHeight := PageHeightEstimate(containerHeight);
    var first := MaxInt(1, Floor(scrollTop / pageHeight) + 1);
    var last := MinInt(totalPages, Ceil((scrollTop + containerHeight) / pageHeight) + 1);
    Window(first, last, MaxInt(1, first - 1), MinInt(totalPages, last + 1))
  }

  /**
   * Every page that overlaps the scrolled view, measured in estimated page heights (page p spans
   * p-1 to p), lies in the rendered range, and so does the page before the first visible one.
   */
  lemma WindowCoversVisiblePages(scrollTop: real, containerHeight: real, totalPages: nat, p: int)
    requires containerHeight >= 0.0
    requires 1 <= p <= totalPages
    requires p as real >= scrollTop / PageHeightEstimate(containerHeight)
    requires (p - 1) as real <= (scrollTop + containerHeight) / PageHeightEstimate(containerHeight)
    ensures ScrollWindow(scrollTop, containerHeight, totalPages).lo <= p <= ScrollWindow(scrollTop, containerHeight, totalPages).hi
  {
    var pageHeight := PageHeightEstimate(containerHeight);
    var a := scrollTop / pageHeight;
    var b := (scrollTop + containerHeight) / pageHeight;
    assert Floor(a) as real <= a;
    assert b <= Ceil(b) as real;
  }

  /** The page under the middle of the view, in estimated page heights. */
  function VisiblePage(scrollTop: real, containerHeight: real): int
    requires containerHeight >= 0.0
  {
    Ceil((scrollTop + containerHeight / 2.0) / PageHeightEstimate(containerHeight))
  }

  /** The new `currentPage`, when the shape is updated: a different page in 1..totalPages. */
  function NextCurrentPage(visible: int, currentPage: int, totalPages: nat): (r: Option<int>)
    ensures r.Some? <==> visible != currentPage && 1 <= visible <= totalPages
    ensures r.Some? ==> r.value == visible
  {
    if visible != currentPage && 1 <= visible <= totalPages then Some(visible) else None
  }

  /** Once the shape follows the scroll position, the same position updates it no more. */
  lemma CurrentPageSettles(visible: int, currentPage: int, totalPages: nat)
    ensures NextCurrentPage(visible, currentPage, totalPages).Some? ==>
      NextCurrentPage(visible, NextCurrentPage(visible, currentPage, totalPages).value, totalPages) == None
  {
  }

  /** The canvases after `renderPage(p)`: the page's canvas is placed when it passes the guard and is fetched. */
  function PlaceOne(tops: map<int, real>, p: int, seen: set<int>, totalPages: nat, outcome: int -> RenderOutcome): map<int, real> {
    if ShouldRender(seen, p, totalPages) && !outcome(p).PageFailed? then tops[p := CanvasTop(p, outcome(p).height)] else tops
  }

  /** Asking for one more page places its canvas as `renderPage` does. */
  lemma PlacedAppend(targets: seq<int>, p: int, seen: set<int>, totalPages: nat, outcome: int -> RenderOutcome, base: map<int, real>)
    ensures base + PlacedAmong(targets + [p], seen, totalPages, outcome) ==
      PlaceOne(base + PlacedAmong(targets, seen, totalPages, outcome), p, seen, totalPages, outcome)
  {
    var l := base + PlacedAmong(targets + [p], seen, totalPages, outcome);
    var r := PlaceOne(base + PlacedAmong(targets, seen, totalPages, outcome), p, seen, totalPages, outcome);
    forall q | q in (targets + [p]) <==> (q in targets || q == p)
      ensures q in l <==> q in r
      ensures q in l ==> l[q] == r[q]
    {
    }
    assert forall q :: q in (targets + [p]) <==> (q in targets || q == p);
  }

  /** The canvases the effect places, page by page in call order. */
  lemma {:induction false} InitialPlaced(currentPage: int, totalPages: nat, seen: set<int>, outcome: int -> RenderOutcome, base: map<int, real>)
    ensures base + PlacedAmong(InitialTargets(currentPage, totalPages), seen, totalPages, outcome) ==
      if totalPages >= currentPage then
        var a := PlaceOne(base, currentPage, seen, totalPages, outcome);
        var b := if currentPage > 1 then PlaceOne(a, currentPage - 1, seen, totalPages, outcome) else a;
        if currentPage < totalPages then PlaceOne(b, currentPage + 1, seen, totalPages, outcome) else b
      else base
  {
    var c := currentPage;
    if totalPages >= c {
      PlacedSingle(c, seen, totalPages, outcome, base);
      var a := PlaceOne(base, c, seen, totalPages, outcome);
      if c > 1 {
        PlacedAppend([c], c - 1, seen, totalPages, outcome, base);
        var b := PlaceOne(a, c - 1, seen, totalPages, outcome);
        assert base + PlacedAmong([c, c - 1], seen, totalPages, outcome) == b by { assert [c] + [c - 1] == [c, c - 1]; }
        if c < totalPages {
          PlacedAppend([c, c - 1], c + 1, seen, totalPages, outcome, base);
          assert InitialTargets(c, totalPages) == [c, c - 1] + [c + 1];
        } else {
          assert InitialTargets(c, totalPages) == [c, c - 1];
        }
      } else if c < totalPages {
        PlacedAppend([c], c + 1, seen, totalPages, outcome, base);
        assert InitialTargets(c, totalPages) == [c] + [c + 1];
      } else {
        assert InitialTargets(c, totalPages) == [c];
      }
    } else {
      assert PlacedAmong([], seen, totalPages, outcome) == map[];
    }
  }

  /** Asking for a single page places its canvas as `renderPage` does. */
  lemma PlacedSingle(p: int, seen: set<int>, totalPages: nat, outcome: int -> RenderOutcome, base: map<int, real>)
    ensures base + PlacedAmong([p], seen, totalPages, outcome) == PlaceOne(base, p, seen, totalPages, outcome)
  {
    var l := base + PlacedAmong([p], seen, totalPages, outcome);
    var r := PlaceOne(base, p, seen, totalPages, outcome);
    assert forall q :: q in l <==> q in r;
  }

  /** Rendering page `i` after pages lo..i-1 draws page `i` when it passes the guard and is drawn. */
  lemma DrawnStep(lo: int, i: int, seen: set<int>, totalPages: nat, outcome: int -> RenderOutcome)
    requires lo <= i
    ensures DrawnBetween(lo, i + 1, seen, totalPages, outcome) ==
      DrawnBetween(lo, i, seen, totalPages, outcome) + DrawnPage(i, seen, totalPages, outcome)
  {
  }

  /** Rendering page `i` after pages lo..i-1 places the canvases of pages lo..i. */
  lemma PlacedStep(lo: int, i: int, seen: set<int>, totalPages: nat, outcome: int -> RenderOutcome, base: map<int, real>)
    requires lo <= i
    ensures base + PlacedBetween(lo, i + 1, seen, totalPages, outcome) ==
      if ShouldRender(seen, i, totalPages) && !outcome(i).PageFailed?
      then (base + PlacedBetween(lo, i, seen, totalPages, outcome))[i := CanvasTop(i, outcome(i).height)]
      else base + PlacedBetween(lo, i, seen, totalPages, outcome)
  {
  }

  /** A loop over lo..hi stops at the later of lo and hi + 1, which covers the same pages as hi + 1. */
  lemma RangeEnd(lo: int, hi: int, seen: set<int>, totalPages: nat, outcome: int -> RenderOutcome)
    ensures DrawnBetween(lo, MaxInt(lo, hi + 1), seen, totalPages, outcome) == DrawnBetween(lo, hi + 1, seen, totalPages, outcome)
    ensures PlacedBetween(lo, MaxInt(lo, hi + 1), seen, totalPages, outcome) == PlacedBetween(lo, hi + 1, seen, totalPages, outcome)
  {
  }

  class Viewer {
    var totalPages: nat
    /** The shape's `currentPage` prop. */
    var currentPage: int
    var renderedPages: set<int>
    /** The top offset of each page's canvas in the container. */
    var canvasTops: map<int, real>

    /** Rendered pages are pages of the document, each with its canvas in place. */
    predicate Valid()
      reads this
    {
      forall p :: p in renderedPages ==> 1 <= p <= totalPages && p in canvasTops
    }

    constructor (totalPages: nat, currentPage: int)
      ensures Valid()
      ensures this.totalPages == totalPages && this.currentPage == currentPage
      ensures renderedPages == {} && canvasTops == map[]
    {
      this.totalPages := totalPages;
      this.currentPage := currentPage;
      renderedPages := {};
      canvasTops := map[];
    }

    /**
     * `renderPage`: past the guard a fetched page gets its canvas at its top offset (replacing an
     * earlier one), and a drawn page joins the rendered pages.
     */
    method RenderPage(page: int, seen: set<int>, result: RenderOutcome)
      requires Valid()
      modifies this`renderedPages, this`canvasTops
      ensures Valid()
      ensures renderedPages == old(renderedPages) +
        if ShouldRender(seen, page, totalPages) && result.Drawn? then {page} else {}
      ensures canvasTops ==
        if ShouldRender(seen, page, totalPages) && !result.PageFailed?
        then old(canvasTops)[page := CanvasTop(page, result.height)] else old(canvasTops)
    {
      if page in seen || page < 1 || page > totalPages {
        return;
      }
      match result
      case PageFailed =>
      case DrawFailed(height) =>
        canvasTops := canvasTops[page := CanvasTop(page, height)];
      case Drawn(height) =>
        canvasTops := canvasTops[page := CanvasTop(page, height)];
        renderedPages := renderedPages + {page};
    }

    /** The effect's first renders: the current page, then the one before, then the one after. */
    method InitialRender(outcome: int -> RenderOutcome)
      requires Valid()
      modifies this`renderedPages, this`canvasTops
      ensures Valid()
      ensures renderedPages ==
        old(renderedPages) + DrawnAmong(InitialTargets(currentPage, totalPages), old(renderedPages), totalPages, outcome)
      ensures canvasTops ==
        old(canvasTops) + PlacedAmong(InitialTargets(currentPage, totalPages), old(renderedPages), totalPages, outcome)
    {
      var seen, c := renderedPages, currentPage;
      ghost var tops, pages := canvasTops, renderedPages;
      if totalPages >= c {
        RenderPage(c, seen, outcome(c));
        tops, pages := PlaceOne(tops, c, seen, totalPages, outcome), pages + DrawnPage(c, seen, totalPages, outcome);
        assert canvasTops == tops && renderedPages == pages;
        if c > 1 {
          RenderPage(c - 1, seen, outcome(c - 1));
          tops, pages := PlaceOne(tops, c - 1, seen, totalPages, outcome), pages + DrawnPage(c - 1, seen, totalPages, outcome);
          assert canvasTops == tops && renderedPages == pages;
        }
        if c < totalPages {
          RenderPage(c + 1, seen, outcome(c + 1));
          tops, pages := PlaceOne(tops, c + 1, seen, totalPages, outcome), pages + DrawnPage(c + 1, seen, totalPages, outcome);
          assert canvasTops == tops && renderedPages == pages;
        }
      }
      InitialDrawn(c, totalPages, seen, outcome, old(renderedPages));
      InitialPlaced(c, totalPages, seen, outcome, old(canvasTops));
    }

    /** `renderPage` for pages lo..hi in increasing order, each guarded against the pages rendered before. */
    method RenderRange(lo: int, hi: int, seen: set<int>, outcome: int -> RenderOutcome)
      requires Valid()
      modifies this`renderedPages, this`canvasTops
      ensures Valid()
      ensures renderedPages == old(renderedPages) + DrawnBetween(lo, hi + 1, seen, totalPages, outcome)
      ensures canvasTops == old(canvasTops) + PlacedBetween(lo, hi + 1, seen, totalPages, outcome)
    {
      var i := lo;
      while i <= hi
        invariant lo <= i <= MaxInt(lo, hi + 1)
        invariant Valid()
        invariant renderedPages == old(renderedPages) + DrawnBetween(lo, i, seen, totalPages, outcome)
        invariant canvasTops == old(canvasTops) + PlacedBetween(lo, i, seen, totalPages, outcome)
      {
        RenderPage(i, seen, outcome(i));
        PlacedStep(lo, i, seen, totalPages, outcome, old(canvasTops));
        DrawnStep(lo, i, seen, totalPages, outcome);
        i := i + 1;
      }
      RangeEnd(lo, hi, seen, totalPages, outcome);
    }

    /**
     * The scroll handler: renders the window around the estimated visible pages in increasing
     * order, then moves the shape's `currentPage` to the page under the middle of the view.
     */
    method HandleScroll(scrollTop: real, containerHeight: real, outcome: int -> RenderOutcome)
      requires containerHeight >= 0.0
      requires Valid()
      modifies this`renderedPages, this`canvasTops, this`currentPage
      ensures Valid()
      ensures var w := ScrollWindow(scrollTop, containerHeight, totalPages);
        renderedPages == old(renderedPages) + DrawnBetween(w.lo, w.hi + 1, old(renderedPages), totalPages, outcome)
      ensures var w := ScrollWindow(scrollTop, containerHeight, totalPages);
        canvasTops == old(canvasTops) + PlacedBetween(w.lo, w.hi + 1, old(renderedPages), totalPages, outcome)
      ensures var next := NextCurrentPage(VisiblePage(scrollTop, containerHeight), old(currentPage), totalPages);
        currentPage == if next.Some? then next.value else old(currentPage)
    {
      var w := ScrollWindow(scrollTop, containerHeight, totalPages);
      RenderRange(w.lo, w.hi, renderedPages, outcome);
      var visible := VisiblePage(scrollTop, containerHeight);
      if visible != currentPage && visible >= 1 && visible <= totalPages {
        currentPage := visible;
      }
    }
  }
}
