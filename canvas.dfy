/**
 * The part of the vector-canvas library (tldraw) that the PDF import path relies on, stated
 * abstractly: shape and asset records keyed by fresh identifiers, the fractional ordering
 * index that fixes paint order, sorting by that index, and an `Editor` that holds the children
 * of the current page in paint order. The library's own algorithms are not part of this model;
 * only the behaviour the import path observes is.
 */
module Canvas {
  import opened Wrappers
  import opened Geometry

  /** Identifiers handed out by the library; every call to the id factories yields a fresh one. */
  datatype ShapeId = ShapeId(n: nat)
  datatype AssetId = AssetId(n: nat)

  datatype Quality = Low | Medium | High

  datatype ShapeKind = Image | PdfPageShape | OtherKind

  /** Shape properties: size, the referenced asset, and the `quality` prop when the shape has one. */
  datatype Props = Props(w: real, h: real, assetId: Option<AssetId>, quality: Option<Quality>)

  datatype Shape = Shape(id: ShapeId, kind: ShapeKind, x: real, y: real, index: real, isLocked: bool, props: Props)

  datatype ImageFormat = Png | Jpeg(quality: real)

  /** An encoded image (a data URL): which raster, in which format, from a canvas of which size. */
  datatype DataUrl = DataUrl(raster: nat, format: ImageFormat, canvas: Size)

  datatype Asset = Asset(id: AssetId, w: real, h: real, src: DataUrl, name: string, mimeType: string, isAnimated: bool)

  /** The store events a side-effect handler can be registered for. */
  datatype StoreEvent = BeforeChange | AfterCreate | AfterChange

  /** A registered side-effect handler: the event, what it does, and the shapes it guards. */
  datatype Registration = Registration(event: StoreEvent, handler: HandlerKind, members: set<ShapeId>)

  datatype HandlerKind = KeepLocked | KeepAtBottom

  datatype CameraConstraint = CameraConstraint(
    bounds: Box, paddingX: real, paddingY: real, originX: real, originY: real,
    initialZoom: string, baseZoom: string, behavior: string)

  function Ids(s: seq<Shape>): (r: seq<ShapeId>)
    ensures |r| == |s| && forall k :: 0 <= k < |s| ==> r[k] == s[k].id
  {
    if s == [] then [] else [s[0].id] + Ids(s[1..])
  }

  predicate DistinctIds(s: seq<Shape>) {
    forall i, j :: 0 <= i < j < |s| ==> s[i].id != s[j].id
  }

  /** Paint order: indices ascend along the sequence (ties allowed). */
  predicate Sorted(s: seq<Shape>) {
    forall i, j :: 0 <= i < j < |s| ==> s[i].index <= s[j].index
  }

  /** Strict paint order: no two siblings share an index. */
  predicate StrictlyOrdered(s: seq<Shape>) {
    forall i, j :: 0 <= i < j < |s| ==> s[i].index < s[j].index
  }

  /** A well-formed list of siblings as the library reports it: distinct shapes in strict index order. */
  predicate ValidSiblings(s: seq<Shape>) {
    StrictlyOrdered(s) && DistinctIds(s)
  }

  function Insert(x: Shape, s: seq<Shape>): seq<Shape> {
    if s == [] then [x]
    else if x.index <= s[0].index then [x] + s
    else [s[0]] + Insert(x, s[1..])
  }

  /** The library's sort by ordering index, modelled as insertion sort. */
  function SortByIndex(s: seq<Shape>): seq<Shape> {
    if s == [] then [] else Insert(s[0], SortByIndex(s[1..]))
  }

  lemma {:induction false} InsertMultiset(x: Shape, s: seq<Shape>)
    ensures multiset(Insert(x, s)) == multiset(s) + multiset{x}
  {
    if s != [] && x.index > s[0].index {
      InsertMultiset(x, s[1..]);
      assert Insert(x, s) == [s[0]] + Insert(x, s[1..]);
      assert multiset(Insert(x, s)) == multiset{s[0]} + multiset(Insert(x, s[1..]));
      assert s == [s[0]] + s[1..];
      assert multiset(s) == multiset{s[0]} + multiset(s[1..]);
    } else {
      assert Insert(x, s) == [x] + s;
    }
  }

  /** Inserting an element at or above a bound into elements at or above it keeps them above it. */
  lemma {:induction false} InsertBound(x: Shape, s: seq<Shape>, bound: real)
    requires bound <= x.index
    requires forall k :: 0 <= k < |s| ==> bound <= s[k].index
    ensures forall k :: 0 <= k < |Insert(x, s)| ==> bound <= Insert(x, s)[k].index
  {
    if s != [] && x.index > s[0].index {
      forall k | 0 <= k < |s[1..]| ensures bound <= s[1..][k].index {
        assert s[1..][k] == s[k + 1];
      }
      InsertBound(x, s[1..], bound);
      var t := Insert(x, s[1..]);
      assert Insert(x, s) == [s[0]] + t;
      forall k | 0 < k < |t| + 1 ensures bound <= ([s[0]] + t)[k].index {
        assert ([s[0]] + t)[k] == t[k - 1];
      }
    } else {
      assert Insert(x, s) == [x] + s;
      forall k | 0 < k < |s| + 1 ensures bound <= ([x] + s)[k].index {
        assert ([x] + s)[k] == s[k - 1];
      }
    }
  }

  /** A first element at or below every other keeps a sorted sequence sorted. */
  lemma SortedCons(a: Shape, t: seq<Shape>)
    requires Sorted(t)
    requires forall k :: 0 <= k < |t| ==> a.index <= t[k].index
    ensures Sorted([a] + t)
  {
    var r := [a] + t;
    forall i, j | 0 <= i < j < |r| ensures r[i].index <= r[j].index {
      assert r[j] == t[j - 1];
      if i > 0 {
        assert r[i] == t[i - 1];
      }
    }
  }

  lemma {:induction false} InsertSorted(x: Shape, s: seq<Shape>)
    requires Sorted(s)
    ensures Sorted(Insert(x, s))
  {
    if s == [] {
      assert Insert(x, s) == [x];
    } else if x.index > s[0].index {
      var rest := s[1..];
      assert Sorted(rest) by {
        forall i, j | 0 <= i < j < |rest| ensures rest[i].index <= rest[j].index {
          assert rest[i] == s[i + 1] && rest[j] == s[j + 1];
        }
      }
      forall k | 0 <= k < |rest| ensures s[0].index <= rest[k].index {
        assert rest[k] == s[k + 1];
      }
      InsertSorted(x, rest);
      InsertBound(x, rest, s[0].index);
      SortedCons(s[0], Insert(x, rest));
      assert Insert(x, s) == [s[0]] + Insert(x, rest);
    } else {
      forall k | 0 <= k < |s| ensures x.index <= s[k].index {
        assert s[0].index <= s[k].index || k == 0;
      }
      SortedCons(x, s);
      assert Insert(x, s) == [x] + s;
    }
  }

  lemma {:induction false} SortFacts(s: seq<Shape>)
    ensures Sorted(SortByIndex(s))
    ensures multiset(SortByIndex(s)) == multiset(s)
  {
    if s != [] {
      SortFacts(s[1..]);
      InsertSorted(s[0], SortByIndex(s[1..]));
      InsertMultiset(s[0], SortByIndex(s[1..]));
      assert s == [s[0]] + s[1..];
    }
  }

  /**
   * A sorted arrangement of a set of siblings whose indices are distinct is unique: if `b` is in
   * strict index order and `a` is a sorted permutation of it, the two are the same sequence.
   */
  lemma {:induction false} SortedUnique(a: seq<Shape>, b: seq<Shape>)
    requires Sorted(a) && StrictlyOrdered(b)
    requires multiset(a) == multiset(b)
    ensures a == b
  {
    if a == [] {
      assert |multiset(b)| == 0;
    } else {
      SortedHeads(a, b);
      MultisetTail(a);
      MultisetTail(b);
      SortedUnique(a[1..], b[1..]);
      assert a == [a[0]] + a[1..];
      assert b == [b[0]] + b[1..];
    }
  }

  /** The least element of a sorted permutation of a strictly ordered sequence is its first. */
  lemma SortedHeads(a: seq<Shape>, b: seq<Shape>)
    requires Sorted(a) && StrictlyOrdered(b)
    requires multiset(a) == multiset(b)
    requires a != []
    ensures b != [] && a[0] == b[0]
  {
    assert a[0] in multiset(b);
    assert b != [];
    assert b[0] in multiset(a);
    var i :| 0 <= i < |a| && a[i] == b[0];
    var j :| 0 <= j < |b| && b[j] == a[0];
    assert a[0].index <= a[i].index;
    assert b[0].index <= b[j].index;
  }

  lemma MultisetTail(a: seq<Shape>)
    requires a != []
    ensures multiset(a[1..]) == multiset(a) - multiset{a[0]}
  {
    assert a == [a[0]] + a[1..];
  }

  /** A batch update of one shape's ordering index and lock flag, as the z-order repair issues it. */
  datatype IndexPatch = IndexPatch(id: ShapeId, kind: ShapeKind, isLocked: bool, index: real)

  function FindPatch(b: seq<IndexPatch>, id: ShapeId): Option<IndexPatch> {
    if b == [] then None else if b[0].id == id then Some(b[0]) else FindPatch(b[1..], id)
  }

  function ApplyPatch(s: Shape, b: seq<IndexPatch>): (r: Shape)
    ensures r.id == s.id
  {
    match FindPatch(b, s.id)
    case None => s
    case Some(p) => s.(index := p.index, isLocked := p.isLocked)
  }

  function PatchAll(s: seq<Shape>, b: seq<IndexPatch>): (r: seq<Shape>)
    ensures |r| == |s| && forall k :: 0 <= k < |s| ==> r[k] == ApplyPatch(s[k], b)
  {
    if s == [] then [] else [ApplyPatch(s[0], b)] + PatchAll(s[1..], b)
  }

  /** The index a newly created shape receives: just above the current top sibling. */
  function IndexAbove(s: seq<Shape>): real {
    if s == [] then 1.0 else s[|s| - 1].index + 1.0
  }

  /** A batch of new shapes as created above the siblings `s`: same records, rising indices above the top. */
  function OnTop(s: seq<Shape>, batch: seq<Shape>): (r: seq<Shape>)
    ensures |r| == |batch|
  {
    seq(|batch|, k requires 0 <= k < |batch| => batch[k].(index := IndexAbove(s) + k as real))
  }

  /** Creating shapes on top keeps the siblings in strict paint order. */
  lemma OnTopOrdered(s: seq<Shape>, batch: seq<Shape>)
    requires StrictlyOrdered(s)
    ensures StrictlyOrdered(s + OnTop(s, batch))
  {
    var t := s + OnTop(s, batch);
    forall i, j | 0 <= i < j < |t| ensures t[i].index < t[j].index {
      if j >= |s| && i < |s| {
        assert s[i].index <= s[|s| - 1].index;
      }
    }
  }

  /**
   * The editor, reduced to what the import path reads and writes: the children of the current page
   * in paint order, the asset records, the camera and its constraint, the viewport width and the
   * listeners registered for the per-frame event.
   */
  class Editor {
    var shapes: seq<Shape>
    var assets: seq<Asset>
    var zoom: real
    var viewportWidth: real
    var cameraConstraint: Option<CameraConstraint>
    var cameraResets: nat
    var frameListeners: set<nat>
    var nextListener: nat
    var sideEffects: seq<Registration>

    /** Every live frame-listener handle was handed out before `nextListener`. */
    predicate ListenersBelowNext()
      reads this
    {
      forall h :: h in frameListeners ==> h < nextListener
    }

    constructor (shapes: seq<Shape>, zoom: real, viewportWidth: real)
      ensures ListenersBelowNext()
      ensures this.shapes == shapes && assets == [] && this.zoom == zoom && this.viewportWidth == viewportWidth
      ensures cameraConstraint == None && cameraResets == 0 && frameListeners == {} && nextListener == 1
      ensures sideEffects == []
    {
      this.shapes := shapes;
      assets := [];
      this.zoom := zoom;
      this.viewportWidth := viewportWidth;
      cameraConstraint := None;
      cameraResets := 0;
      frameListeners := {};
      nextListener := 1;
      sideEffects := [];
    }

    method CreateAssets(batch: seq<Asset>)
      modifies this`assets
      ensures assets == old(assets) + batch
    {
      assets := assets + batch;
    }

    /** New shapes go on top of the current page, in the order given, each above the previous one. */
    method CreateShapes(batch: seq<Shape>)
      modifies this`shapes
      ensures shapes == old(shapes) + OnTop(old(shapes), batch)
    {
      shapes := shapes + OnTop(shapes, batch);
    }

    /** Applies a batch of index patches; the page's children are then reported in index order. */
    method UpdateShapes(batch: seq<IndexPatch>)
      modifies this`shapes
      ensures shapes == SortByIndex(PatchAll(old(shapes), batch))
    {
      shapes := SortByIndex(PatchAll(shapes, batch));
    }

    /** Replaces the props of the shape with the given id; paint order is untouched. */
    method UpdateShapeProps(id: ShapeId, props: Props)
      modifies this`shapes
      ensures |shapes| == |old(shapes)|
      ensures forall k :: 0 <= k < |shapes| ==>
        shapes[k] == if old(shapes)[k].id == id then old(shapes)[k].(props := props) else old(shapes)[k]
    {
      var s := shapes;
      shapes := seq(|s|, k requires 0 <= k < |s| => if s[k].id == id then s[k].(props := props) else s[k]);
    }

    method SetCameraConstraint(c: CameraConstraint)
      modifies this`cameraConstraint
      ensures cameraConstraint == Some(c)
    {
      cameraConstraint := Some(c);
    }

    /** Re-applies the current camera under the constraint (`setCamera(getCamera(), {reset: true})`). */
    method ResetCamera()
      modifies this`cameraResets
      ensures cameraResets == old(cameraResets) + 1
    {
      cameraResets := cameraResets + 1;
    }

    method RegisterHandler(r: Registration)
      modifies this`sideEffects
      ensures sideEffects == old(sideEffects) + [r]
    {
      sideEffects := sideEffects + [r];
    }

    method On() returns (listener: nat)
      modifies this`frameListeners, this`nextListener
      ensures listener == old(nextListener)
      ensures frameListeners == old(frameListeners) + {listener}
      ensures nextListener == old(nextListener) + 1
      ensures old(ListenersBelowNext()) ==> listener !in old(frameListeners) && ListenersBelowNext()
    {
      listener := nextListener;
      frameListeners := frameListeners + {listener};
      nextListener := nextListener + 1;
    }

    method Off(listener: nat)
      modifies this`frameListeners
      ensures frameListeners == old(frameListeners) - {listener}
      ensures old(ListenersBelowNext()) ==> ListenersBelowNext()
    {
      frameListeners := frameListeners - {listener};
    }
  }
}
