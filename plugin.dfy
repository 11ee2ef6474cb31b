/**
 * The plugin's PDF entry point (`openPDF` in src/main.ts) and the pieces around it: the loader it
 * actually calls (the `loadPdf` declared in src/main.ts, which stacks pages at x = 0 with a 20-unit
 * gap and fails as a whole when any page fails), the bounded wait for the editor, the mapping from
 * page records to asset and shape records, `applyPdfBehavior`, the per-tab view-mode dictionary
 * and the file-extension rule of `createTldrFile`.
 */
module Plugin {
  import opened Wrappers
  import opened Geometry
  import opened Canvas
  import opened PdfImport
  import opened PdfBehavior
  import opened Strings

  // ---------------------------------------------------------------------------------------------
  // The loader declared in src/main.ts

  const LegacyScale: real := 1.5
  const LegacyPageSpacing: real := 20.0
  const CdnWorkerSrc: string := "https://cdnjs.cloudflare.com/ajax/libs/pdf.js/3.4.120/pdf.worker.min.js"

  /** Why the loader threw: the document did not open, or the page with this number failed. */
  datatype LegacyLoadError = DocumentFailed | PageFailed(pageNumber: nat)

  predicate AllRendered(outs: seq<PageOutcome>) {
    forall k :: 0 <= k < |outs| ==> outs[k].Rendered?
  }

  /** The position of the first page that fails, if any. */
  function FirstFailure(outs: seq<PageOutcome>): (r: Option<nat>)
    ensures r.None? <==> AllRendered(outs)
    ensures r.Some? ==> r.value < |outs| && outs[r.value].Failed? && AllRendered(outs[..r.value])
  {
    if outs == [] then None
    else if outs[0].Failed? then Some(0)
    else match FirstFailure(outs[1..])
      case None => None
      case Some(i) => assert outs[..i + 1] == [outs[0]] + outs[1..][..i]; Some(i + 1)
  }

  /** A failing page after only rendered ones is the first failure. */
  lemma {:induction false} FirstFailureAt(outs: seq<PageOutcome>, i: nat)
    requires i < |outs| && outs[i].Failed? && AllRendered(outs[..i])
    ensures FirstFailure(outs) == Some(i)
  {
    if i > 0 {
      assert outs[..i][0] == outs[0];
      assert outs[1..][..i - 1] == outs[..i][1..];
      FirstFailureAt(outs[1..], i - 1);
    }
  }

  /** Each page's viewport at the fixed scale 1.5. */
  function LegacySizes(outs: seq<PageOutcome>): (r: seq<Size>)
    requires AllRendered(outs)
    ensures |r| == |outs|
  {
    seq(|outs|, k requires 0 <= k < |outs| => Viewport(outs[k].natural, LegacyScale))
  }

  /** The page records: PNG of the full viewport, stacked at x = 0, fresh identifiers in page order. */
  function LegacyPages(outs: seq<PageOutcome>, firstId: nat): (r: seq<PdfPage>)
    requires AllRendered(outs)
    ensures |r| == |outs|
  {
    var sizes := LegacySizes(outs);
    var boxes := Stack(sizes, LegacyPageSpacing);
    seq(|outs|, k requires 0 <= k < |outs| =>
      PdfPage(DataUrl(outs[k].raster, Png, sizes[k]), boxes[k], AssetId(firstId + k), ShapeId(firstId + k)))
  }

  /** What the loader returns or throws for a document (None: the library could not open it). */
  function LegacyResult(name: string, document: Option<seq<PageOutcome>>, firstId: nat): Result<Pdf, LegacyLoadError> {
    if document.None? then Failure(DocumentFailed)
    else match FirstFailure(document.value)
      case Some(i) => Failure(PageFailed(i + 1))
      case None => Success(Pdf(name, LegacyPages(document.value, firstId)))
  }

  lemma LegacyPagesAppend(outs: seq<PageOutcome>, o: PageOutcome, firstId: nat)
    requires AllRendered(outs) && o.Rendered?
    ensures AllRendered(outs + [o])
    ensures LegacyPages(outs + [o], firstId) == LegacyPages(outs, firstId) +
      [PdfPage(DataUrl(o.raster, Png, Viewport(o.natural, LegacyScale)),
               Box(0.0, StackHeight(LegacySizes(outs), LegacyPageSpacing),
                   Viewport(o.natural, LegacyScale).width, Viewport(o.natural, LegacyScale).height),
               AssetId(firstId + |outs|), ShapeId(firstId + |outs|))]
  {
    var t := outs + [o];
    assert LegacySizes(t) == LegacySizes(outs) + [Viewport(o.natural, LegacyScale)];
    StackAppend(LegacySizes(outs), Viewport(o.natural, LegacyScale), LegacyPageSpacing);
  }

  /** One more rendered page extends the records by its own and moves the offset down by its height and the gap. */
  lemma LegacyStep(outs: seq<PageOutcome>, i: nat, firstId: nat)
    requires i < |outs| && AllRendered(outs[..i]) && outs[i].Rendered?
    ensures AllRendered(outs[..i + 1])
    ensures var v := Viewport(outs[i].natural, LegacyScale);
      LegacyPages(outs[..i + 1], firstId) == LegacyPages(outs[..i], firstId) +
        [PdfPage(DataUrl(outs[i].raster, Png, v), Box(0.0, StackHeight(LegacySizes(outs[..i]), LegacyPageSpacing), v.width, v.height),
                 AssetId(firstId + i), ShapeId(firstId + i))]
    ensures StackHeight(LegacySizes(outs[..i + 1]), LegacyPageSpacing) ==
      StackHeight(LegacySizes(outs[..i]), LegacyPageSpacing) + Viewport(outs[i].natural, LegacyScale).height + LegacyPageSpacing
  {
    var v := Viewport(outs[i].natural, LegacyScale);
    assert outs[..i + 1] == outs[..i] + [outs[i]];
    LegacyPagesAppend(outs[..i], outs[i], firstId);
    StackAppend(LegacySizes(outs[..i]), v, LegacyPageSpacing);
    assert LegacySizes(outs[..i + 1]) == LegacySizes(outs[..i]) + [v];
  }

  /**
   * `loadPdf` of src/main.ts: sets the worker source to the CDN build only when none is set (and
   * leaves it so), then renders every page in order, moving down by its height plus 20; any
   * failure aborts the whole load.
   */
  method LegacyLoadPdf(options: WorkerOptions, name: string, document: Option<seq<PageOutcome>>, firstId: nat)
    returns (r: Result<Pdf, LegacyLoadError>)
    modifies options
    ensures options.workerSrc == if old(options.workerSrc) == "" then CdnWorkerSrc else old(options.workerSrc)
    ensures r == LegacyResult(name, document, firstId)
  {
    if options.workerSrc == "" {
      options.workerSrc := CdnWorkerSrc;
    }
    if document.None? {
      return Failure(DocumentFailed);
    }
    var outs := document.value;
    var pages: seq<PdfPage> := [];
    var yOffset := 0.0;
    var i := 0;
    while i < |outs|
      invariant 0 <= i <= |outs|
      invariant AllRendered(outs[..i])
      invariant pages == LegacyPages(outs[..i], firstId)
      invariant yOffset == StackHeight(LegacySizes(outs[..i]), LegacyPageSpacing)
      invariant options.workerSrc == if old(options.workerSrc) == "" then CdnWorkerSrc else old(options.workerSrc)
    {
      if outs[i].Failed? {
        FirstFailureAt(outs, i);
        return Failure(PageFailed(i + 1));
      }
      var viewport := Viewport(outs[i].natural, LegacyScale);
      LegacyStep(outs, i, firstId);
      pages := pages + [PdfPage(DataUrl(outs[i].raster, Png, viewport), Box(0.0, yOffset, viewport.width, viewport.height),
                                AssetId(firstId + i), ShapeId(firstId + i))];
      yOffset := yOffset + viewport.height + LegacyPageSpacing;
      i := i + 1;
    }
    assert outs[..i] == outs;
    r := Success(Pdf(name, pages));
  }

  /**
   * The loader of src/main.ts keeps every page, in page order, at x = 0 and 1.5 times its natural
   * size, the first at y = 0 and each next one 20 units below the previous, always as PNG, with
   * pairwise distinct identifiers; a single failing page fails the whole document.
   */
  lemma LegacyLayout(name: string, outs: seq<PageOutcome>, firstId: nat)
    ensures LegacyResult(name, Some(outs), firstId).Success? <==> AllRendered(outs)
    ensures AllRendered(outs) ==>
      var p := LegacyResult(name, Some(outs), firstId).value.pages;
      |p| == |outs| &&
      (forall k :: 0 <= k < |p| ==>
        p[k].bounds.x == 0.0 && p[k].src.format == Png &&
        p[k].bounds.w == outs[k].natural.width * LegacyScale && p[k].bounds.h == outs[k].natural.height * LegacyScale) &&
      (|p| > 0 ==> p[0].bounds.y == 0.0) &&
      (forall k :: 0 <= k < |p| - 1 ==> p[k + 1].bounds.y == p[k].bounds.y + p[k].bounds.h + LegacyPageSpacing) &&
      (forall i, j :: 0 <= i < j < |p| ==> p[i].shapeId != p[j].shapeId && p[i].assetId != p[j].assetId)
  {
    if AllRendered(outs) {
      StackSpacing(LegacySizes(outs), LegacyPageSpacing);
    }
  }

  // ---------------------------------------------------------------------------------------------
  // Waiting for the editor

  const EditorPollAttempts: nat := 10

  /**
   * Whether `openPDF` sees an editor when it reads `currTldrawEditor` after the wait: the wait
   * checks at moments 0 to 9 and pauses after each failed check, so the read comes at the moment
   * of the check that succeeded, or at moment 10 after the last pause.
   */
  predicate EditorReadAfterWait(arrival: Option<nat>) {
    arrival.Some? && arrival.value <= EditorPollAttempts
  }

  /**
   * `waitForEditor(attempts, delay)`: checks up to `attempts` times, pausing between checks, and
   * stops at the first check that finds the editor. `arrival` is the check from which the editor
   * is present (None: it never appears). Returns whether it was found and how many checks ran.
   */
  method WaitForEditor(attempts: nat, arrival: Option<nat>) returns (found: bool, checks: nat)
    ensures found <==> arrival.Some? && arrival.value < attempts
    ensures checks == if found then arrival.value + 1 else attempts
    ensures checks <= attempts
  {
    var i := 0;
    while i < attempts
      invariant 0 <= i <= attempts
      invariant arrival.None? || i <= arrival.value
    {
      if arrival.Some? && arrival.value == i {
        return true, i + 1;
      }
      i := i + 1;
    }
    return false, attempts;
  }

  // ---------------------------------------------------------------------------------------------
  // From page records to canvas records

  /** The image asset created for a page. */
  function AssetFor(page: PdfPage): Asset {
    Asset(page.assetId, page.bounds.w, page.bounds.h, page.src, "page", "image/png", false)
  }

  /** The locked image shape created for a page (its index is assigned on creation). */
  function ShapeFor(page: PdfPage): Shape {
    Shape(page.shapeId, Image, page.bounds.x, page.bounds.y, 0.0, true,
          Props(page.bounds.w, page.bounds.h, Some(page.assetId), None))
  }

  function AssetsFor(pages: seq<PdfPage>): (r: seq<Asset>)
    ensures |r| == |pages|
  {
    seq(|pages|, k requires 0 <= k < |pages| => AssetFor(pages[k]))
  }

  function ShapesFor(pages: seq<PdfPage>): (r: seq<Shape>)
    ensures |r| == |pages|
  {
    seq(|pages|, k requires 0 <= k < |pages| => ShapeFor(pages[k]))
  }

  /** The shape ids of the imported pages. */
  function PageShapeIds(pdf: Pdf): set<ShapeId> {
    set k | 0 <= k < |pdf.pages| :: pdf.pages[k].shapeId
  }

  function PageBounds(pages: seq<PdfPage>): (r: seq<Box>)
    ensures |r| == |pages|
  {
    seq(|pages|, k requires 0 <= k < |pages| => pages[k].bounds)
  }

  /**
   * Every page gives exactly one asset and one shape: the shape is a locked image at the page's
   * position, of the page's size, referencing the asset of the page, which has the same size;
   * distinct page identifiers give distinct asset and shape identifiers, and every created shape
   * is one the behaviour guards.
   */
  lemma MaterialisedPagesJoin(pdf: Pdf)
    ensures var a, s := AssetsFor(pdf.pages), ShapesFor(pdf.pages);
      |a| == |s| == |pdf.pages| &&
      forall k :: 0 <= k < |s| ==>
        s[k].id == pdf.pages[k].shapeId && s[k].id in PageShapeIds(pdf) &&
        s[k].kind == Image && s[k].isLocked &&
        s[k].x == pdf.pages[k].bounds.x && s[k].y == pdf.pages[k].bounds.y &&
        s[k].props.assetId == Some(a[k].id) && a[k].id == pdf.pages[k].assetId &&
        s[k].props.w == a[k].w == pdf.pages[k].bounds.w && s[k].props.h == a[k].h == pdf.pages[k].bounds.h &&
        a[k].src == pdf.pages[k].src && a[k].mimeType == "image/png"
    ensures (forall i, j :: 0 <= i < j < |pdf.pages| ==> pdf.pages[i].shapeId != pdf.pages[j].shapeId) ==>
      DistinctIds(ShapesFor(pdf.pages))
  {
  }

  /**
   * The page shapes an import creates are new to the page: the page's children are well formed,
   * no two pages share a shape id and no page reuses the id of a shape already there.
   */
  predicate FreshPages(sibs: seq<Shape>, pdf: Pdf) {
    ValidSiblings(sibs) &&
    (forall i, j :: 0 <= i < j < |pdf.pages| ==> pdf.pages[i].shapeId != pdf.pages[j].shapeId) &&
    (forall k, j :: 0 <= k < |pdf.pages| && 0 <= j < |sibs| ==> pdf.pages[k].shapeId != sibs[j].id)
  }

  /**
   * The imported pages lie below every other shape, in page order, and the shapes that were on the
   * page before (`before`) are the others, with their records and order.
   */
  predicate PagesAtBottom(after: seq<Shape>, before: seq<Shape>, pdf: Pdf) {
    var S := PageShapeIds(pdf);
    AtBottom(after, S) && Others(after, S) == before &&
    |Members(after, S)| == |pdf.pages| &&
    (forall k :: 0 <= k < |pdf.pages| ==> Members(after, S)[k].id == pdf.pages[k].shapeId)
  }

  /** The state `openPDF` leaves behind when its page shapes are new to the page. */
  lemma ImportedPagesEndAtBottom(sibs: seq<Shape>, pdf: Pdf)
    requires FreshPages(sibs, pdf)
    ensures PagesAtBottom(Repaired(sibs + OnTop(sibs, ShapesFor(pdf.pages)), PageShapeIds(pdf)), sibs, pdf)
  {
    var S := PageShapeIds(pdf);
    var created := OnTop(sibs, ShapesFor(pdf.pages));
    var all := sibs + created;
    CreatedPagesSplit(sibs, pdf);
    FilterAppend(sibs, created, S);
    assert Members(all, S) == created && Others(all, S) == sibs;
    RepairedIsAtBottom(all, S);
    SameIdsSameOrder(Members(Repaired(all, S), S), created, pdf);
  }

  lemma SameIdsSameOrder(ms: seq<Shape>, created: seq<Shape>, pdf: Pdf)
    requires Ids(ms) == Ids(created)
    requires |created| == |pdf.pages| && forall k :: 0 <= k < |created| ==> created[k].id == pdf.pages[k].shapeId
    ensures |ms| == |pdf.pages| && forall k :: 0 <= k < |pdf.pages| ==> ms[k].id == pdf.pages[k].shapeId
  {
    assert |ms| == |Ids(ms)|;
  }

  /**
   * New page shapes created on top of the page: the page stays well formed, the shapes already
   * there are all others and the created ones are all imported pages, in page order.
   */
  lemma CreatedPagesSplit(sibs: seq<Shape>, pdf: Pdf)
    requires FreshPages(sibs, pdf)
    ensures var created, S := OnTop(sibs, ShapesFor(pdf.pages)), PageShapeIds(pdf);
      ValidSiblings(sibs + created) &&
      Members(sibs, S) == [] && Others(sibs, S) == sibs &&
      Members(created, S) == created && Others(created, S) == [] &&
      forall k :: 0 <= k < |created| ==> created[k].id == pdf.pages[k].shapeId
  {
    var S := PageShapeIds(pdf);
    var created := OnTop(sibs, ShapesFor(pdf.pages));
    CreatedIds(sibs, pdf);
    OnTopOrdered(sibs, ShapesFor(pdf.pages));
    CreatedDistinct(sibs, created, pdf);
    OldShapesAreOthers(sibs, pdf);
    FilterAll(sibs, S);
    FilterAll(created, S);
  }

  lemma CreatedIds(sibs: seq<Shape>, pdf: Pdf)
    ensures var created := OnTop(sibs, ShapesFor(pdf.pages));
      |created| == |pdf.pages| &&
      forall k :: 0 <= k < |created| ==> created[k].id == pdf.pages[k].shapeId && created[k].id in PageShapeIds(pdf)
  {
  }

  lemma OldShapesAreOthers(sibs: seq<Shape>, pdf: Pdf)
    requires forall k, j :: 0 <= k < |pdf.pages| && 0 <= j < |sibs| ==> pdf.pages[k].shapeId != sibs[j].id
    ensures forall k :: 0 <= k < |sibs| ==> sibs[k].id !in PageShapeIds(pdf)
  {
  }

  lemma CreatedDistinct(sibs: seq<Shape>, created: seq<Shape>, pdf: Pdf)
    requires FreshPages(sibs, pdf)
    requires |created| == |pdf.pages| && forall k :: 0 <= k < |created| ==> created[k].id == pdf.pages[k].shapeId
    ensures DistinctIds(sibs + created)
  {
    var all := sibs + created;
    forall i, j | 0 <= i < j < |all| ensures all[i].id != all[j].id {
      if j >= |sibs| {
        assert all[j] == created[j - |sibs|];
        if i >= |sibs| {
          assert all[i] == created[i - |sibs|];
        } else {
          assert all[i] == sibs[i];
        }
      }
    }
  }

  // ---------------------------------------------------------------------------------------------
  // Inputs of `openPDF` and its outcome

  const DefaultFileName: string := "document.pdf"

  /**
   * What `openPDF` is handed: an already loaded PDF, a URL (with whether the fetch succeeded and
   * what the library makes of the bytes), or the bytes themselves.
   */
  datatype PdfInput =
    | Parsed(pdf: Pdf)
    | FromUrl(url: string, fetchOk: bool, document: Option<seq<PageOutcome>>)
    | FromBytes(document: Option<seq<PageOutcome>>)

  /** The notice `openPDF` ends with, or none. */
  datatype OpenOutcome = Opened | LoadNotice | EditorNotice | RenderNotice

  /** The text after the last '/' of `s` (all of `s` when it has none). */
  function LastSegment(s: string): (r: string)
    ensures |r| <= |s| && s[|s| - |r|..] == r
    ensures '/' !in r
    ensures |r| < |s| ==> s[|s| - |r| - 1] == '/'
  {
    if s == [] then []
    else if s[|s| - 1] == '/' then []
    else LastSegment(s[..|s| - 1]) + [s[|s| - 1]]
  }

  /** `url.split('/').pop() || 'document.pdf'`. */
  function FileNameFromUrl(url: string): (r: string)
    ensures r != []
  {
    var last := LastSegment(url);
    if last == [] then DefaultFileName else last
  }

  /** A string without '/' is its own last segment. */
  lemma {:induction false} LastSegmentOfSegment(segment: string)
    requires '/' !in segment
    ensures LastSegment(segment) == segment
  {
    if segment != [] {
      var init := segment[..|segment| - 1];
      assert forall c :: c in init ==> c in segment;
      LastSegmentOfSegment(init);
      assert init + [segment[|segment| - 1]] == segment;
    }
  }

  /** The segment after the last '/' of a URL is its last segment. */
  lemma {:induction false} LastSegmentAfterSlash(prefix: string, segment: string)
    requires '/' !in segment
    ensures LastSegment(prefix + "/" + segment) == segment
  {
    var u := prefix + "/" + segment;
    if segment != [] {
      var init := segment[..|segment| - 1];
      assert forall c :: c in init ==> c in segment;
      assert u[..|u| - 1] == prefix + "/" + init;
      assert u[|u| - 1] == segment[|segment| - 1];
      LastSegmentAfterSlash(prefix, init);
      assert init + [segment[|segment| - 1]] == segment;
    }
  }

  /** The name a URL gives: its last path segment, or the default name when that is empty. */
  lemma FileNameFromUrlIsLastSegment(prefix: string, segment: string)
    requires '/' !in segment
    ensures FileNameFromUrl(prefix + "/" + segment) == if segment == [] then DefaultFileName else segment
    ensures segment != [] ==> FileNameFromUrl(segment) == segment
  {
    LastSegmentAfterSlash(prefix, segment);
    LastSegmentOfSegment(segment);
  }

  /** The loader is called unless the input is already loaded or the fetch failed. */
  predicate CallsLoader(input: PdfInput) {
    input.FromBytes? || (input.FromUrl? && input.fetchOk)
  }

  /** The PDF `openPDF` goes on with, or None when preparing it threw. */
  function PreparedPdf(input: PdfInput, firstId: nat): Option<Pdf> {
    match input
    case Parsed(pdf) => Some(pdf)
    case FromUrl(url, fetchOk, document) =>
      if !fetchOk then None
      else var r := LegacyResult(FileNameFromUrl(url), document, firstId); if r.Success? then Some(r.value) else None
    case FromBytes(document) =>
      var r := LegacyResult(DefaultFileName, document, firstId); if r.Success? then Some(r.value) else None
  }

  /** The three handlers `applyPdfBehavior` registers, in order. */
  function BehaviorHandlers(S: set<ShapeId>): seq<Registration> {
    [Registration(BeforeChange, KeepLocked, S), Registration(AfterCreate, KeepAtBottom, S),
     Registration(AfterChange, KeepAtBottom, S)]
  }

  // ---------------------------------------------------------------------------------------------
  // The plugin object

  /** Which view a tab shows; the view-type names belong to the host application. */
  type ViewType = string

  /** `${leafId}-${filePath}`: the key of a tab and the file open in it. */
  /** The file part of a key: the path, or nothing when there is no file. */
  function PathText(filePath: Option<string>): string {
    if filePath.Some? then filePath.value else ""
  }

  function LeafFileId(leafId: string, filePath: Option<string>): string {
    leafId + "-" + PathText(filePath)
  }

  /** When tab ids contain no '-', distinct (tab, file) pairs have distinct keys. */
  lemma LeafFileIdInjective(a: string, f: Option<string>, b: string, g: Option<string>)
    requires '-' !in a && '-' !in b
    requires LeafFileId(a, f) == LeafFileId(b, g)
    ensures a == b
    ensures PathText(f) == PathText(g)
  {
    var fa, gb := PathText(f), PathText(g);
    var x, y := LeafFileId(a, f), LeafFileId(b, g);
    assert x[|a|] == '-' && y[|b|] == '-';
    if |a| < |b| {
      assert false;
    } else if |b| < |a| {
      assert false;
    }
    assert a == x[..|a|] && b == y[..|b|];
    assert fa == x[|a| + 1..] && gb == y[|b| + 1..];
  }

  /** The view mode recorded for a tab and file, if any. */
  function ModeOf(modes: map<string, ViewType>, leafId: string, filePath: Option<string>): Option<ViewType> {
    var id := LeafFileId(leafId, filePath);
    if id in modes then Some(modes[id]) else None
  }

  /** Recording a mode makes it the one read back, and leaves every other tab's mode as it was. */
  lemma ModeOfAfterSet(modes: map<string, ViewType>, leafId: string, filePath: Option<string>, v: ViewType,
                       otherLeaf: string, otherPath: Option<string>)
    requires '-' !in leafId && '-' !in otherLeaf
    ensures ModeOf(modes[LeafFileId(leafId, filePath) := v], leafId, filePath) == Some(v)
    ensures otherLeaf != leafId ==>
      ModeOf(modes[LeafFileId(leafId, filePath) := v], otherLeaf, otherPath) == ModeOf(modes, otherLeaf, otherPath)
    ensures otherLeaf == leafId && PathText(otherPath) != PathText(filePath) ==>
      ModeOf(modes[LeafFileId(leafId, filePath) := v], otherLeaf, otherPath) == ModeOf(modes, otherLeaf, otherPath)
  {
    if LeafFileId(leafId, filePath) == LeafFileId(otherLeaf, otherPath) {
      LeafFileIdInjective(leafId, filePath, otherLeaf, otherPath);
    }
  }

  class TldrawPlugin {
    /** The editor of the most recently mounted canvas view, if any. */
    var currTldrawEditor: Editor?
    /** The view mode of each tab-and-file pair. */
    var leafFileViewModes: map<string, ViewType>

    constructor ()
      ensures currTldrawEditor == null && leafFileViewModes == map[]
    {
      currTldrawEditor := null;
      leafFileViewModes := map[];
    }

    method GetLeafFileViewMode(leafId: string, filePath: Option<string>) returns (mode: Option<ViewType>)
      ensures mode == ModeOf(leafFileViewModes, leafId, filePath)
    {
      var id := LeafFileId(leafId, filePath);
      mode := if id in leafFileViewModes then Some(leafFileViewModes[id]) else None;
    }

    method SetLeafFileViewMode(viewMode: ViewType, leafId: string, filePath: Option<string>)
      modifies this`leafFileViewModes
      ensures leafFileViewModes == old(leafFileViewModes)[LeafFileId(leafId, filePath) := viewMode]
    {
      leafFileViewModes := leafFileViewModes[LeafFileId(leafId, filePath) := viewMode];
    }

    /**
     * `applyPdfBehavior`: nothing without an editor; otherwise registers the lock guard, runs the
     * z-order repair once and registers it for creation and change, then constrains the camera to
     * the pages and resets it. With no pages the camera step throws (`failed`), after the handlers
     * are in place. The resulting shape list is stated for an editor with no earlier registrations:
     * handlers of an earlier import would react to the repair's update.
     */
    method ApplyPdfBehavior(pdf: Pdf) returns (failed: bool)
      modifies currTldrawEditor
      ensures failed <==> currTldrawEditor != null && pdf.pages == []
      ensures currTldrawEditor != null ==>
        var ed, S := currTldrawEditor, PageShapeIds(pdf);
        ed.sideEffects == old(ed.sideEffects) + BehaviorHandlers(S) &&
        (old(ed.sideEffects) == [] ==> ed.shapes == Repaired(old(ed.shapes), S)) &&
        ed.assets == old(ed.assets) && ed.viewportWidth == old(ed.viewportWidth) && ed.zoom == old(ed.zoom) &&
        ed.frameListeners == old(ed.frameListeners) && ed.nextListener == old(ed.nextListener) &&
        (pdf.pages != [] ==>
          ed.cameraConstraint == Some(CameraConstraintFor(TargetBounds(PageBounds(pdf.pages)).value, ed.viewportWidth)) &&
          ed.cameraResets == old(ed.cameraResets) + 1) &&
        (pdf.pages == [] ==> ed.cameraConstraint == old(ed.cameraConstraint) && ed.cameraResets == old(ed.cameraResets))
    {
      if currTldrawEditor == null {
        return false;
      }
      var editor := currTldrawEditor;
      var S := PageShapeIds(pdf);
      editor.RegisterHandler(Registration(BeforeChange, KeepLocked, S));
      MakeSureShapesAreAtBottom(editor, S);
      editor.RegisterHandler(Registration(AfterCreate, KeepAtBottom, S));
      editor.RegisterHandler(Registration(AfterChange, KeepAtBottom, S));
      var target := TargetBounds(PageBounds(pdf.pages));
      if target.None? {
        return true;
      }
      editor.SetCameraConstraint(CameraConstraintFor(target.value, editor.viewportWidth));
      editor.ResetCamera();
      failed := false;
    }

    /**
     * `openPDF`: prepares the PDF (a notice and nothing else when that throws), waits for the
     * editor (a notice when it never appears), creates one asset and one locked image shape per
     * page and applies the PDF behaviour (a notice when that throws). The host mounts the view's
     * editor `view` at check `arrival` unless an editor is already current.
     */
    method OpenPdf(input: PdfInput, options: WorkerOptions, view: Editor, arrival: Option<nat>, firstId: nat)
      returns (outcome: OpenOutcome)
      modifies this`currTldrawEditor, options, view, currTldrawEditor
      ensures leafFileViewModes == old(leafFileViewModes)
      ensures options.workerSrc ==
        if CallsLoader(input) && old(options.workerSrc) == "" then CdnWorkerSrc else old(options.workerSrc)
      ensures outcome == LoadNotice <==> PreparedPdf(input, firstId).None?
      ensures PreparedPdf(input, firstId).None? ==>
        currTldrawEditor == old(currTldrawEditor) && unchanged(view) &&
        (currTldrawEditor != null ==> unchanged(currTldrawEditor))
      ensures PreparedPdf(input, firstId).Some? ==>
        currTldrawEditor == (if old(currTldrawEditor) != null then old(currTldrawEditor)
                             else if EditorReadAfterWait(arrival) then view else null)
      ensures view != currTldrawEditor ==> unchanged(view)
      ensures PreparedPdf(input, firstId).Some? && currTldrawEditor == null ==> outcome == EditorNotice
      ensures PreparedPdf(input, firstId).Some? && currTldrawEditor != null ==>
        var pdf, ed := PreparedPdf(input, firstId).value, currTldrawEditor;
        outcome == (if pdf.pages == [] then RenderNotice else Opened) &&
        ed.assets == old(ed.assets) + AssetsFor(pdf.pages) &&
        (old(ed.sideEffects) == [] ==>
          ed.shapes == Repaired(old(ed.shapes) + OnTop(old(ed.shapes), ShapesFor(pdf.pages)), PageShapeIds(pdf))) &&
        ed.sideEffects == old(ed.sideEffects) + BehaviorHandlers(PageShapeIds(pdf)) &&
        ed.zoom == old(ed.zoom) && ed.viewportWidth == old(ed.viewportWidth) &&
        ed.frameListeners == old(ed.frameListeners) && ed.nextListener == old(ed.nextListener) &&
        (pdf.pages != [] ==>
          ed.cameraConstraint == Some(CameraConstraintFor(TargetBounds(PageBounds(pdf.pages)).value, ed.viewportWidth)) &&
          ed.cameraResets == old(ed.cameraResets) + 1) &&
        (pdf.pages == [] ==> ed.cameraConstraint == old(ed.cameraConstraint) && ed.cameraResets == old(ed.cameraResets)) &&
        (old(ed.sideEffects) == [] && FreshPages(old(ed.shapes), pdf) ==> PagesAtBottom(ed.shapes, old(ed.shapes), pdf))
    {
      var prepared := PreparePdf(input, options, firstId);
      if prepared.None? {
        return LoadNotice;
      }
      outcome := ShowPdf(prepared.value, view, arrival);
    }

    /**
     * The part of `openPDF` after the PDF is ready: waits for the editor and reads it once more,
     * then places the pages.
     */
    method ShowPdf(pdf: Pdf, view: Editor, arrival: Option<nat>) returns (outcome: OpenOutcome)
      modifies this`currTldrawEditor, view, currTldrawEditor
      ensures leafFileViewModes == old(leafFileViewModes)
      ensures outcome != LoadNotice
      ensures currTldrawEditor == (if old(currTldrawEditor) != null then old(currTldrawEditor)
                                   else if EditorReadAfterWait(arrival) then view else null)
      ensures view != currTldrawEditor ==> unchanged(view)
      ensures currTldrawEditor == null ==> outcome == EditorNotice
      ensures currTldrawEditor != null ==>
        var ed := currTldrawEditor;
        outcome == (if pdf.pages == [] then RenderNotice else Opened) &&
        ed.assets == old(ed.assets) + AssetsFor(pdf.pages) &&
        (old(ed.sideEffects) == [] ==>
          ed.shapes == Repaired(old(ed.shapes) + OnTop(old(ed.shapes), ShapesFor(pdf.pages)), PageShapeIds(pdf))) &&
        ed.sideEffects == old(ed.sideEffects) + BehaviorHandlers(PageShapeIds(pdf)) &&
        ed.zoom == old(ed.zoom) && ed.viewportWidth == old(ed.viewportWidth) &&
        ed.frameListeners == old(ed.frameListeners) && ed.nextListener == old(ed.nextListener) &&
        (pdf.pages != [] ==>
          ed.cameraConstraint == Some(CameraConstraintFor(TargetBounds(PageBounds(pdf.pages)).value, ed.viewportWidth)) &&
          ed.cameraResets == old(ed.cameraResets) + 1) &&
        (pdf.pages == [] ==> ed.cameraConstraint == old(ed.cameraConstraint) && ed.cameraResets == old(ed.cameraResets)) &&
        (old(ed.sideEffects) == [] && FreshPages(old(ed.shapes), pdf) ==> PagesAtBottom(ed.shapes, old(ed.shapes), pdf))
    {
      var found, checks := WaitForEditor(EditorPollAttempts, if currTldrawEditor != null then Some(0) else arrival);
      // `currTldrawEditor` is read once more after the wait: at the moment of the successful
      // check, or after the pause that follows the last failed one.
      var readAt := if found then checks - 1 else checks;
      if currTldrawEditor == null && arrival.Some? && arrival.value <= readAt {
        currTldrawEditor := view;
      }
      if currTldrawEditor == null {
        return EditorNotice;
      }
      outcome := PlacePages(pdf);
    }

    /**
     * The `try` block of `openPDF`: one asset and one locked image shape per page, then the PDF
     * behaviour. On an editor with no earlier registrations, when the page shapes are new to the
     * page, the pages end up below every other shape, in page order, and the shapes already there
     * keep their order.
     */
    method PlacePages(pdf: Pdf) returns (outcome: OpenOutcome)
      requires currTldrawEditor != null
      modifies currTldrawEditor
      ensures outcome == (if pdf.pages == [] then RenderNotice else Opened)
      ensures currTldrawEditor.assets == old(currTldrawEditor.assets) + AssetsFor(pdf.pages)
      ensures old(currTldrawEditor.sideEffects) == [] ==>
        currTldrawEditor.shapes ==
          Repaired(old(currTldrawEditor.shapes) + OnTop(old(currTldrawEditor.shapes), ShapesFor(pdf.pages)), PageShapeIds(pdf))
      ensures currTldrawEditor.sideEffects == old(currTldrawEditor.sideEffects) + BehaviorHandlers(PageShapeIds(pdf))
      ensures currTldrawEditor.zoom == old(currTldrawEditor.zoom)
      ensures currTldrawEditor.viewportWidth == old(currTldrawEditor.viewportWidth)
      ensures currTldrawEditor.frameListeners == old(currTldrawEditor.frameListeners)
      ensures currTldrawEditor.nextListener == old(currTldrawEditor.nextListener)
      ensures pdf.pages != [] ==>
        currTldrawEditor.cameraConstraint ==
          Some(CameraConstraintFor(TargetBounds(PageBounds(pdf.pages)).value, currTldrawEditor.viewportWidth)) &&
        currTldrawEditor.cameraResets == old(currTldrawEditor.cameraResets) + 1
      ensures pdf.pages == [] ==>
        currTldrawEditor.cameraConstraint == old(currTldrawEditor.cameraConstraint) &&
        currTldrawEditor.cameraResets == old(currTldrawEditor.cameraResets)
      ensures old(currTldrawEditor.sideEffects) == [] && FreshPages(old(currTldrawEditor.shapes), pdf) ==>
        PagesAtBottom(currTldrawEditor.shapes, old(currTldrawEditor.shapes), pdf)
    {
      var editor := currTldrawEditor;
      ghost var before, registered := editor.shapes, editor.sideEffects;
      editor.CreateAssets(AssetsFor(pdf.pages));
      editor.CreateShapes(ShapesFor(pdf.pages));
      ghost var created := editor.shapes;
      assert created == before + OnTop(before, ShapesFor(pdf.pages));
      var failed := ApplyPdfBehavior(pdf);
      outcome := if failed then RenderNotice else Opened;
      if registered == [] {
        assert editor.shapes == Repaired(created, PageShapeIds(pdf));
        if FreshPages(before, pdf) {
          ImportedPagesEndAtBottom(before, pdf);
        }
      }
    }
  }

  /**
   * The first part of `openPDF`: the PDF as given, or loaded from the fetched URL or the bytes of
   * the file; None when fetching or loading fails.
   */
  method PreparePdf(input: PdfInput, options: WorkerOptions, firstId: nat) returns (prepared: Option<Pdf>)
    modifies options
    ensures options.workerSrc ==
      if CallsLoader(input) && old(options.workerSrc) == "" then CdnWorkerSrc else old(options.workerSrc)
    ensures prepared == PreparedPdf(input, firstId)
  {
    match input {
      case Parsed(p) =>
        prepared := Some(p);
      case FromUrl(url, fetchOk, document) =>
        if !fetchOk {
          return None;
        }
        var r := LegacyLoadPdf(options, FileNameFromUrl(url), document, firstId);
        prepared := if r.Success? then Some(r.value) else None;
      case FromBytes(document) =>
        var r := LegacyLoadPdf(options, DefaultFileName, document, firstId);
        prepared := if r.Success? then Some(r.value) else None;
    }
  }

  // ---------------------------------------------------------------------------------------------
  // File names

  /** `createTldrFile` adds the extension only when the name does not already end with it. */
  function WithExtension(filename: string, extension: string): (r: string)
    ensures EndsWith(r, extension)
    ensures |filename| <= |r| <= |filename| + |extension|
    ensures r[..|filename|] == filename
  {
    if EndsWith(filename, extension) then filename else filename + extension
  }

  /** Adding the extension twice is adding it once. */
  lemma WithExtensionIdempotent(filename: string, extension: string)
    ensures WithExtension(WithExtension(filename, extension), extension) == WithExtension(filename, extension)
  {
  }
}
