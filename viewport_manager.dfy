/**
 * `PdfViewportManager` (src/tldraw/PdfViewPortMan.ts): keeps the `quality` prop of the PDF page
 * shapes of the current page in step with the camera zoom. It sweeps on every (debounced) frame
 * and once a second while started; `stop` tears both down.
 *
 * The browser's timers are a `Scheduler` object handing out positive handles; the debounce and
 * the dispatch of frame events are not part of this model (each sweep is one call).
 */
module ViewportManager {
  import opened Wrappers
  import opened Canvas

  /** Interval handles are positive, so a stored handle is always truthy. */
  type TimerHandle = n: nat | n > 0 witness 1

  const SweepIntervalMs: nat := 1000
  const LowZoomBelow: real := 0.8
  const HighZoomAbove: real := 1.5

  /** `zoom < 0.8 ? 'low' : zoom > 1.5 ? 'high' : 'medium'`. */
  function QualityFor(zoom: real): Quality {
    if zoom < LowZoomBelow then Low else if zoom > HighZoomAbove then High else Medium
  }

  function Rank(q: Quality): nat {
    match q
    case Low => 0
    case Medium => 1
    case High => 2
  }

  /**
   * The tiers in words: low below 0.8, high above 1.5, medium on the closed range between, and
   * never lower for a larger zoom.
   */
  lemma QualityTiers(zoom: real, other: real)
    ensures QualityFor(zoom) == Low <==> zoom < 0.8
    ensures QualityFor(zoom) == High <==> zoom > 1.5
    ensures QualityFor(zoom) == Medium <==> 0.8 <= zoom <= 1.5
    ensures zoom <= other ==> Rank(QualityFor(zoom)) <= Rank(QualityFor(other))
  {
  }

  /** The sweep updates a shape exactly when it is a PDF page whose `quality` prop exists and differs. */
  predicate NeedsUpdate(s: Shape, q: Quality) {
    s.kind == PdfPageShape && s.props.quality.Some? && s.props.quality.value != q
  }

  /** A shape after the sweep: its props copied with `quality` replaced, if it needed an update. */
  function Requalify(s: Shape, q: Quality): Shape {
    if NeedsUpdate(s, q) then s.(props := s.props.(quality := Some(q))) else s
  }

  function Requalified(shapes: seq<Shape>, q: Quality): (r: seq<Shape>)
    ensures |r| == |shapes|
  {
    seq(|shapes|, k requires 0 <= k < |shapes| => Requalify(shapes[k], q))
  }

  /** The ids the sweep issues updates for, in page order; none exactly when no shape needs one. */
  function UpdatedIds(shapes: seq<Shape>, q: Quality): (r: seq<ShapeId>)
    ensures |r| <= |shapes|
    ensures r == [] <==> forall k :: 0 <= k < |shapes| ==> !NeedsUpdate(shapes[k], q)
  {
    if shapes == [] then []
    else
      var rest := UpdatedIds(shapes[1..], q);
      assert (forall k :: 0 <= k < |shapes| ==> !NeedsUpdate(shapes[k], q)) <==>
        !NeedsUpdate(shapes[0], q) && forall k :: 0 <= k < |shapes[1..]| ==> !NeedsUpdate(shapes[1..][k], q) by {
        forall k | 0 < k < |shapes| ensures shapes[k] == shapes[1..][k - 1] { }
      }
      (if NeedsUpdate(shapes[0], q) then [shapes[0].id] else []) + rest
  }

  /**
   * What the sweep does to each shape: only PDF pages with a differing `quality` change, they get
   * the target quality, and nothing but `quality` changes; a second sweep at the same zoom finds
   * nothing to update.
   */
  lemma RequalifiedFacts(shapes: seq<Shape>, q: Quality)
    ensures var r := Requalified(shapes, q);
      (forall k :: 0 <= k < |r| ==>
        r[k] == shapes[k].(props := shapes[k].props.(quality := r[k].props.quality)) &&
        (NeedsUpdate(shapes[k], q) ==> r[k].props.quality == Some(q)) &&
        (!NeedsUpdate(shapes[k], q) ==> r[k] == shapes[k]) &&
        !NeedsUpdate(r[k], q)) &&
      Requalified(r, q) == r && UpdatedIds(r, q) == []
  {
  }

  lemma UpdatedIdsAppend(shapes: seq<Shape>, s: Shape, q: Quality)
    ensures UpdatedIds(shapes + [s], q) == UpdatedIds(shapes, q) + (if NeedsUpdate(s, q) then [s.id] else [])
    decreases |shapes|
  {
    if shapes != [] {
      assert (shapes + [s])[1..] == shapes[1..] + [s];
      UpdatedIdsAppend(shapes[1..], s, q);
    } else {
      assert [s][1..] == [];
    }
  }

  /** The first `i` of `pages` have been swept, the rest are as they were. */
  predicate SweptUpTo(current: seq<Shape>, pages: seq<Shape>, i: nat, q: Quality) {
    |current| == |pages| &&
    forall k :: 0 <= k < |pages| ==> current[k] == if k < i then Requalify(pages[k], q) else pages[k]
  }

  lemma SweptAll(current: seq<Shape>, pages: seq<Shape>, q: Quality)
    requires SweptUpTo(current, pages, |pages|, q)
    ensures current == Requalified(pages, q)
  {
  }

  /** Updating the props of the i-th page by id, after the earlier ones, touches that page only. */
  lemma SweepStep(pages: seq<Shape>, before: seq<Shape>, after: seq<Shape>, i: nat, q: Quality)
    requires DistinctIds(pages) && i < |pages| && |after| == |pages|
    requires SweptUpTo(before, pages, i, q)
    requires NeedsUpdate(pages[i], q)
    requires forall k :: 0 <= k < |after| ==>
      after[k] == if before[k].id == pages[i].id then before[k].(props := pages[i].props.(quality := Some(q))) else before[k]
    ensures SweptUpTo(after, pages, i + 1, q)
  {
    forall k | 0 <= k < |pages|
      ensures after[k] == if k < i + 1 then Requalify(pages[k], q) else pages[k]
    {
      assert before[k].id == pages[k].id;
      if k != i {
        assert pages[k].id != pages[i].id;
      }
    }
  }

  /** The ids issued for one more page of a sequence. */
  lemma UpdatedIdsPrefix(pages: seq<Shape>, i: nat, q: Quality)
    requires i < |pages|
    ensures UpdatedIds(pages[..i + 1], q) == UpdatedIds(pages[..i], q) + if NeedsUpdate(pages[i], q) then [pages[i].id] else []
  {
    UpdatedIdsAppend(pages[..i], pages[i], q);
    assert pages[..i + 1] == pages[..i] + [pages[i]];
  }

  lemma UpdatedIdsWhole(pages: seq<Shape>, q: Quality)
    ensures UpdatedIds(pages[..|pages|], q) == UpdatedIds(pages, q)
  {
    assert pages[..|pages|] == pages;
  }

  /** The browser's timers, reduced to the set of live interval handles. */
  class Scheduler {
    /** The live intervals and the period of each, in milliseconds. */
    var active: map<TimerHandle, nat>
    var lastHandle: nat

    constructor ()
      ensures active == map[] && lastHandle == 0
    {
      active := map[];
      lastHandle := 0;
    }

    method SetInterval(period: nat) returns (handle: TimerHandle)
      modifies this
      ensures handle == old(lastHandle) + 1 && lastHandle == handle
      ensures active == old(active)[handle := period]
    {
      handle := lastHandle + 1;
      lastHandle := handle;
      active := active[handle := period];
    }

    method ClearInterval(handle: TimerHandle)
      modifies this`active
      ensures active == old(active) - {handle}
    {
      active := active - {handle};
    }
  }

  class PdfViewportManager {
    const editor: Editor
    var visibilityCheckInterval: Option<TimerHandle>
    /** The frame listener to remove on `stop`, while it is registered. */
    var unsubscribe: Option<nat>

    /** Registers the (debounced) sweep as a frame listener and keeps the means to remove it. */
    constructor (editor: Editor)
      modifies editor`frameListeners, editor`nextListener
      ensures this.editor == editor
      ensures visibilityCheckInterval == None
      ensures unsubscribe == Some(old(editor.nextListener))
      ensures editor.frameListeners == old(editor.frameListeners) + {old(editor.nextListener)}
      ensures editor.nextListener == old(editor.nextListener) + 1
    {
      this.editor := editor;
      visibilityCheckInterval := None;
      var listener := editor.On();
      unsubscribe := Some(listener);
    }

    /**
     * One sweep: every PDF page shape of the current page whose `quality` exists and differs from
     * the tier of the current zoom is updated to that tier, in page order.
     */
    method UpdateQualityBasedOnZoom() returns (updated: seq<ShapeId>)
      requires DistinctIds(editor.shapes)
      modifies editor`shapes
      ensures editor.shapes == Requalified(old(editor.shapes), QualityFor(editor.zoom))
      ensures updated == UpdatedIds(old(editor.shapes), QualityFor(editor.zoom))
    {
      var zoom := editor.zoom;
      var quality := QualityFor(zoom);
      var pages := editor.shapes;
      updated := [];
      var i := 0;
      while i < |pages|
        invariant 0 <= i <= |pages|
        invariant SweptUpTo(editor.shapes, pages, i, quality)
        invariant updated == UpdatedIds(pages[..i], quality)
      {
        var shape := pages[i];
        var issued := UpdateShapeQuality(shape, quality, pages, i);
        if issued {
          updated := updated + [shape.id];
        }
        UpdatedIdsPrefix(pages, i, quality);
        i := i + 1;
      }
      UpdatedIdsWhole(pages, quality);
      SweptAll(editor.shapes, pages, quality);
    }

    /**
     * The body of the sweep for one shape (the i-th of `pages`): the update is issued only for a
     * PDF page whose `quality` exists and differs, and it copies the props with `quality` replaced.
     */
    method UpdateShapeQuality(shape: Shape, quality: Quality, ghost pages: seq<Shape>, ghost i: nat)
      returns (issued: bool)
      requires DistinctIds(pages) && i < |pages| && shape == pages[i]
      requires SweptUpTo(editor.shapes, pages, i, quality)
      modifies editor`shapes
      ensures SweptUpTo(editor.shapes, pages, i + 1, quality)
      ensures issued == NeedsUpdate(shape, quality)
    {
      issued := shape.kind == PdfPageShape && shape.props.quality.Some? && shape.props.quality.value != quality;
      if issued {
        ghost var before := editor.shapes;
        editor.UpdateShapeProps(shape.id, shape.props.(quality := Some(quality)));
        SweepStep(pages, before, editor.shapes, i, quality);
      }
    }

    /** Installs the one-second sweep and sweeps once at once. */
    method Start(timers: Scheduler) returns (updated: seq<ShapeId>)
      requires DistinctIds(editor.shapes)
      modifies timers, this`visibilityCheckInterval, editor`shapes
      ensures visibilityCheckInterval == Some(old(timers.lastHandle) + 1)
      ensures timers.active == old(timers.active)[old(timers.lastHandle) + 1 := SweepIntervalMs]
      ensures editor.shapes == Requalified(old(editor.shapes), QualityFor(editor.zoom))
      ensures updated == UpdatedIds(old(editor.shapes), QualityFor(editor.zoom))
    {
      var handle := timers.SetInterval(SweepIntervalMs);
      visibilityCheckInterval := Some(handle);
      updated := UpdateQualityBasedOnZoom();
    }

    /**
     * Clears the interval and removes the frame listener, each only if present, and forgets both;
     * so a second `stop` changes nothing.
     */
    method Stop(timers: Scheduler)
      modifies timers`active, this`visibilityCheckInterval, this`unsubscribe, editor`frameListeners
      ensures visibilityCheckInterval == None && unsubscribe == None
      ensures timers.active == if old(visibilityCheckInterval).Some?
        then old(timers.active) - {old(visibilityCheckInterval).value} else old(timers.active)
      ensures editor.frameListeners == if old(unsubscribe).Some?
        then old(editor.frameListeners) - {old(unsubscribe).value} else old(editor.frameListeners)
    {
      if visibilityCheckInterval.Some? {
        timers.ClearInterval(visibilityCheckInterval.value);
        visibilityCheckInterval := None;
      }
      if unsubscribe.Some? {
        editor.Off(unsubscribe.value);
        unsubscribe := None;
      }
    }
  }
}
