/**
 * The behaviour the plugin attaches to an imported PDF (`applyPdfBehavior` in src/main.ts):
 * imported pages cannot be unlocked, they are kept below every other shape of the page, and
 * the camera is constrained to the union of their bounds.
 */
module PdfBehavior {
  import opened Wrappers
  import opened Geometry
  import opened Canvas

  // ---------------------------------------------------------------------------------------------
  // Lock guard

  /**
   * The before-change handler: a change that would leave an imported page unlocked is replaced
   * by the page's previous record, locked; every other change passes through.
   */
  function LockRewrite(members: set<ShapeId>, prev: Shape, next: Shape): (r: Shape)
    ensures next.id !in members ==> r == next
    ensures next.id in members ==> r.isLocked
    ensures next.isLocked ==> r == next
    ensures r == next || r == prev.(isLocked := true)
  {
    if next.id !in members then next
    else if next.isLocked then next
    else prev.(isLocked := true)
  }

  /** Running the guard on its own output changes nothing. */
  lemma LockRewriteIdempotent(members: set<ShapeId>, prev: Shape, next: Shape)
    requires prev.id == next.id
    ensures LockRewrite(members, prev, LockRewrite(members, prev, next)) == LockRewrite(members, prev, next)
  {
  }

  /** The record of one shape after a series of attempted changes, each passed through the guard. */
  function AfterChanges(members: set<ShapeId>, current: Shape, attempts: seq<Shape>): Shape
    decreases |attempts|
  {
    if attempts == [] then current
    else AfterChanges(members, LockRewrite(members, current, attempts[0].(id := current.id)), attempts[1..])
  }

  /** An imported page is locked at creation and no series of changes unlocks it. */
  lemma {:induction false} ImportedPageStaysLocked(members: set<ShapeId>, current: Shape, attempts: seq<Shape>)
    requires current.id in members && current.isLocked
    ensures AfterChanges(members, current, attempts).isLocked
    ensures AfterChanges(members, current, attempts).id == current.id
    decreases |attempts|
  {
    if attempts != [] {
      var next := LockRewrite(members, current, attempts[0].(id := current.id));
      ImportedPageStaysLocked(members, next, attempts[1..]);
    }
  }

  // ---------------------------------------------------------------------------------------------
  // Keeping the imported pages at the bottom

  /** The imported pages among `s`, in the order of `s`. */
  function Members(s: seq<Shape>, S: set<ShapeId>): (r: seq<Shape>)
    ensures |r| <= |s|
    ensures forall k :: 0 <= k < |r| ==> r[k].id in S && r[k] in s
  {
    if s == [] then [] else (if s[0].id in S then [s[0]] else []) + Members(s[1..], S)
  }

  /** The other shapes among `s`, in the order of `s`. */
  function Others(s: seq<Shape>, S: set<ShapeId>): (r: seq<Shape>)
    ensures |r| <= |s|
    ensures forall k :: 0 <= k < |r| ==> r[k].id !in S && r[k] in s
  {
    if s == [] then [] else (if s[0].id !in S then [s[0]] else []) + Others(s[1..], S)
  }

  /** No imported page lies above a shape that is not one. */
  predicate AtBottom(sibs: seq<Shape>, S: set<ShapeId>) {
    forall i, j :: 0 <= i < j < |sibs| && sibs[i].id !in S ==> sibs[j].id !in S
  }

  /** `getIndicesBetween(undefined, bound, n)`: n strictly increasing indices below `bound`. */
  function IndicesBelow(bound: real, n: nat): (r: seq<real>)
    ensures |r| == n
    ensures forall i, j :: 0 <= i < j < n ==> r[i] < r[j]
    ensures forall i :: 0 <= i < n ==> r[i] < bound
  {
    seq(n, i requires 0 <= i < n => bound - (n - i) as real)
  }

  /**
   * The batch `makeSureShapesAreAtBottom` issues for the page's children `sibs` (in paint order),
   * or None when it issues nothing: the imported pages are already the bottom ones, or there is no
   * other shape to go below.
   */
  function RepairBatch(sibs: seq<Shape>, S: set<ShapeId>): Option<seq<IndexPatch>> {
    var shapes := Members(sibs, S);
    var n := |shapes|;
    if Ids(sibs[..n]) == Ids(shapes) then None
    else
      var others := Others(sibs, S);
      if others == [] then None
      else
        var indexes := IndicesBelow(others[0].index, n);
        Some(seq(n, i requires 0 <= i < n => IndexPatch(shapes[i].id, shapes[i].kind, shapes[i].isLocked, indexes[i])))
  }

  /** The page's children after the repair (the library re-sorts them by index). */
  function Repaired(sibs: seq<Shape>, S: set<ShapeId>): seq<Shape> {
    match RepairBatch(sibs, S)
    case None => sibs
    case Some(b) => SortByIndex(PatchAll(sibs, b))
  }

  /** The imported pages with the indices of the batch. */
  function Lowered(shapes: seq<Shape>, b: seq<IndexPatch>): (r: seq<Shape>)
    requires |b| == |shapes|
    ensures |r| == |shapes|
  {
    seq(|shapes|, i requires 0 <= i < |shapes| => shapes[i].(index := b[i].index))
  }

  /** The closure registered for shape creation and change, acting on the editor. */
  method MakeSureShapesAreAtBottom(editor: Editor, S: set<ShapeId>)
    modifies editor`shapes
    ensures editor.shapes == Repaired(old(editor.shapes), S)
  {
    var batch := RepairBatch(editor.shapes, S);
    if batch.Some? {
      editor.UpdateShapes(batch.value);
    }
  }

  /**
   * The check `makeSureShapesAreAtBottom` performs (the first n children are exactly the n imported
   * pages, in order) holds exactly when no imported page lies above another shape.
   */
  lemma {:induction false} BottomCheckIsAtBottom(sibs: seq<Shape>, S: set<ShapeId>)
    ensures var n := |Members(sibs, S)|; Ids(sibs[..n]) == Ids(Members(sibs, S)) <==> AtBottom(sibs, S)
  {
    if sibs != [] {
      var rest := sibs[1..];
      assert sibs == [sibs[0]] + rest;
      BottomCheckIsAtBottom(rest, S);
      if sibs[0].id in S {
        CheckConsMember(sibs[0], rest, S);
        AtBottomConsMember(sibs[0], rest, S);
      } else {
        CheckConsOther(sibs[0], rest, S);
        AtBottomConsOther(sibs[0], rest, S);
      }
    }
  }

  lemma CheckConsMember(x: Shape, rest: seq<Shape>, S: set<ShapeId>)
    requires x.id in S
    ensures var s := [x] + rest; var m := Members(rest, S);
      Ids(s[..|Members(s, S)|]) == Ids(Members(s, S)) <==> Ids(rest[..|m|]) == Ids(m)
  {
    var s := [x] + rest;
    var m := Members(rest, S);
    MembersCons(x, rest, S);
    PrefixCons(x, rest, |m|);
    IdsCons(x, rest[..|m|]);
    IdsCons(x, m);
    assert Members(s, S) == [x] + m;
    assert Ids(s[..|Members(s, S)|]) == [x.id] + Ids(rest[..|m|]);
    assert Ids(Members(s, S)) == [x.id] + Ids(m);
    SameHead(x.id, Ids(rest[..|m|]), Ids(m));
  }

  lemma PrefixCons(x: Shape, rest: seq<Shape>, n: nat)
    requires n <= |rest|
    ensures ([x] + rest)[..n + 1] == [x] + rest[..n]
  {
  }

  lemma IdsCons(x: Shape, t: seq<Shape>)
    ensures Ids([x] + t) == [x.id] + Ids(t)
  {
    assert ([x] + t)[1..] == t;
  }

  /** Two sequences with the same head are equal exactly when their tails are. */
  lemma SameHead(a: ShapeId, t: seq<ShapeId>, u: seq<ShapeId>)
    ensures [a] + t == [a] + u <==> t == u
  {
    if [a] + t == [a] + u {
      assert t == ([a] + t)[1..];
    }
  }

  /** Members and Others of a sequence, one element at a time from the front. */
  lemma MembersCons(x: Shape, rest: seq<Shape>, S: set<ShapeId>)
    ensures Members([x] + rest, S) == (if x.id in S then [x] else []) + Members(rest, S)
    ensures Others([x] + rest, S) == (if x.id !in S then [x] else []) + Others(rest, S)
  {
    assert ([x] + rest)[1..] == rest;
  }

  lemma CheckConsOther(x: Shape, rest: seq<Shape>, S: set<ShapeId>)
    requires x.id !in S
    ensures var s := [x] + rest;
      Ids(s[..|Members(s, S)|]) == Ids(Members(s, S)) <==> Members(rest, S) == []
  {
    var s := [x] + rest;
    var m := Members(rest, S);
    assert s[1..] == rest;
    assert Members(s, S) == m;
    if m != [] {
      assert Ids(s[..|m|])[0] == x.id;
      assert Ids(m)[0] == m[0].id;
    }
  }

  lemma AtBottomConsMember(x: Shape, rest: seq<Shape>, S: set<ShapeId>)
    requires x.id in S
    ensures AtBottom([x] + rest, S) <==> AtBottom(rest, S)
  {
    var s := [x] + rest;
    if AtBottom(rest, S) {
      forall i, j | 0 <= i < j < |s| && s[i].id !in S ensures s[j].id !in S {
        assert rest[i - 1] == s[i] && rest[j - 1] == s[j];
      }
    }
    if AtBottom(s, S) {
      forall i, j | 0 <= i < j < |rest| && rest[i].id !in S ensures rest[j].id !in S {
        assert s[i + 1] == rest[i] && s[j + 1] == rest[j];
      }
    }
  }

  lemma AtBottomConsOther(x: Shape, rest: seq<Shape>, S: set<ShapeId>)
    requires x.id !in S
    ensures AtBottom([x] + rest, S) <==> Members(rest, S) == []
  {
    var s := [x] + rest;
    var m := Members(rest, S);
    if m == [] {
      forall j | 0 <= j < |rest| ensures rest[j].id !in S {
        if rest[j].id in S {
          MemberOfFilter(rest, S, j);
          assert false;
        }
      }
      forall i, j | 0 <= i < j < |s| && s[i].id !in S ensures s[j].id !in S {
        assert s[j] == rest[j - 1];
      }
    } else {
      assert m[0] in rest;
      var j :| 0 <= j < |rest| && rest[j] == m[0];
      assert s[0] == x && s[j + 1] == m[0];
    }
  }

  /** A shape of `s` that is imported appears among the members. */
  lemma {:induction false} MemberOfFilter(s: seq<Shape>, S: set<ShapeId>, i: nat)
    requires i < |s| && s[i].id in S
    ensures s[i] in Members(s, S)
  {
    if i > 0 {
      MemberOfFilter(s[1..], S, i - 1);
    }
  }

  /**
   * The repair issues nothing exactly when the imported pages are already at the bottom or when
   * there is no other shape on the page.
   */
  lemma RepairIssuesNothingIff(sibs: seq<Shape>, S: set<ShapeId>)
    ensures RepairBatch(sibs, S).None? <==> AtBottom(sibs, S) || Others(sibs, S) == []
  {
    BottomCheckIsAtBottom(sibs, S);
  }

  /** Splitting a sequence into its imported pages and the rest loses and adds nothing. */
  lemma {:induction false} FilterPartition(s: seq<Shape>, S: set<ShapeId>)
    ensures multiset(s) == multiset(Members(s, S)) + multiset(Others(s, S))
  {
    if s != [] {
      var x, rest := s[0], s[1..];
      FilterPartition(rest, S);
      assert s == [x] + rest;
      MembersCons(x, rest, S);
      assert multiset(s) == multiset{x} + multiset(rest);
    }
  }

  /** Both filters keep the strict paint order of the sequence they select from. */
  lemma {:induction false} FilterOrdered(s: seq<Shape>, S: set<ShapeId>)
    requires StrictlyOrdered(s)
    ensures StrictlyOrdered(Members(s, S)) && StrictlyOrdered(Others(s, S))
  {
    if s != [] {
      FilterOrdered(s[1..], S);
      assert s == [s[0]] + s[1..];
      if s[0].id in S {
        OrderedCons(s[0], Members(s[1..], S), s[1..]);
      } else {
        OrderedCons(s[0], Others(s[1..], S), s[1..]);
      }
    }
  }

  /** The imported pages of a sequence with distinct ids have distinct ids. */
  lemma {:induction false} MembersDistinct(s: seq<Shape>, S: set<ShapeId>)
    requires DistinctIds(s)
    ensures DistinctIds(Members(s, S))
  {
    if s != [] {
      MembersDistinct(s[1..], S);
      var m := Members(s[1..], S);
      if s[0].id in S {
        forall k | 0 <= k < |m| ensures m[k].id != s[0].id {
          var j :| 0 <= j < |s[1..]| && s[1..][j] == m[k];
          assert s[j + 1] == m[k];
        }
        var r := [s[0]] + m;
        forall i, j | 0 <= i < j < |r| ensures r[i].id != r[j].id {
          if i > 0 {
            assert r[i] == m[i - 1] && r[j] == m[j - 1];
          }
        }
      }
    }
  }

  /** Putting the head of an ordered sequence in front of an ordered selection of its tail keeps order. */
  lemma OrderedCons(x: Shape, sel: seq<Shape>, tail: seq<Shape>)
    requires StrictlyOrdered([x] + tail) && StrictlyOrdered(sel)
    requires forall k :: 0 <= k < |sel| ==> sel[k] in tail
    ensures StrictlyOrdered([x] + sel)
  {
    var r := [x] + sel;
    forall i, j | 0 <= i < j < |r| ensures r[i].index < r[j].index {
      var t := [x] + tail;
      if i == 0 {
        var q :| 0 <= q < |tail| && tail[q] == sel[j - 1];
        assert r[0] == t[0] && r[j] == t[q + 1];
      } else {
        assert r[i] == sel[i - 1] && r[j] == sel[j - 1];
      }
    }
  }

  // ---------------------------------------------------------------------------------------------
  // What the repair does

  /** The shapes `s` with one patch applied to each, as a single list (pointwise). */
  lemma PatchAllCons(x: Shape, t: seq<Shape>, b: seq<IndexPatch>)
    ensures PatchAll([x] + t, b) == [ApplyPatch(x, b)] + PatchAll(t, b)
  {
    var l, r := PatchAll([x] + t, b), [ApplyPatch(x, b)] + PatchAll(t, b);
    assert |l| == |r|;
    forall k | 0 <= k < |l| ensures l[k] == r[k] {
      if k > 0 {
        assert ([x] + t)[k] == t[k - 1];
      }
    }
  }

  /** Patching keeps identities, so it commutes with splitting off the imported pages. */
  lemma {:induction false} PatchAllFilter(s: seq<Shape>, S: set<ShapeId>, b: seq<IndexPatch>)
    ensures Members(PatchAll(s, b), S) == PatchAll(Members(s, S), b)
    ensures Others(PatchAll(s, b), S) == PatchAll(Others(s, S), b)
  {
    if s != [] {
      var m, o := Members(s[1..], S), Others(s[1..], S);
      PatchAllFilter(s[1..], S, b);
      PatchAllCons(s[0], s[1..], b);
      var p := PatchAll(s, b);
      assert s[1..] == s[1..];
      assert p[0] == ApplyPatch(s[0], b) && p[1..] == PatchAll(s[1..], b);
      if s[0].id in S {
        PatchAllCons(s[0], m, b);
      } else {
        PatchAllCons(s[0], o, b);
      }
    }
  }

  lemma {:induction false} FindPatchAbsent(b: seq<IndexPatch>, id: ShapeId)
    requires forall k :: 0 <= k < |b| ==> b[k].id != id
    ensures FindPatch(b, id) == None
  {
    if b != [] {
      FindPatchAbsent(b[1..], id);
    }
  }

  lemma {:induction false} FindPatchFirst(b: seq<IndexPatch>, i: nat)
    requires i < |b|
    requires forall k :: 0 <= k < i ==> b[k].id != b[i].id
    ensures FindPatch(b, b[i].id) == Some(b[i])
  {
    if i > 0 {
      FindPatchFirst(b[1..], i - 1);
    }
  }

  /** Two lists are equal when they agree pointwise. */
  lemma LoweredIsPatched(ms: seq<Shape>, b: seq<IndexPatch>)
    requires |b| == |ms| && DistinctIds(ms)
    requires forall i :: 0 <= i < |ms| ==> b[i].id == ms[i].id && b[i].isLocked == ms[i].isLocked
    ensures PatchAll(ms, b) == Lowered(ms, b)
  {
    forall i | 0 <= i < |ms| ensures ApplyPatch(ms[i], b) == Lowered(ms, b)[i] {
      FindPatchFirst(b, i);
    }
  }

  lemma OthersUnpatched(os: seq<Shape>, S: set<ShapeId>, b: seq<IndexPatch>)
    requires forall k :: 0 <= k < |os| ==> os[k].id !in S
    requires forall k :: 0 <= k < |b| ==> b[k].id in S
    ensures PatchAll(os, b) == os
  {
    forall i | 0 <= i < |os| ensures ApplyPatch(os[i], b) == os[i] {
      FindPatchAbsent(b, os[i].id);
    }
  }

  lemma {:induction false} FilterAppend(a: seq<Shape>, c: seq<Shape>, S: set<ShapeId>)
    ensures Members(a + c, S) == Members(a, S) + Members(c, S)
    ensures Others(a + c, S) == Others(a, S) + Others(c, S)
  {
    if a != [] {
      FilterAppend(a[1..], c, S);
      assert (a + c)[0] == a[0] && (a + c)[1..] == a[1..] + c;
    } else {
      assert a + c == c;
    }
  }

  lemma {:induction false} FilterAll(s: seq<Shape>, S: set<ShapeId>)
    ensures (forall k :: 0 <= k < |s| ==> s[k].id in S) ==> Members(s, S) == s && Others(s, S) == []
    ensures (forall k :: 0 <= k < |s| ==> s[k].id !in S) ==> Members(s, S) == [] && Others(s, S) == s
  {
    if s != [] {
      FilterAll(s[1..], S);
      assert s == [s[0]] + s[1..];
    }
  }

  /**
   * The batch names the imported pages in their order, with their own kind and lock flag, and
   * gives them strictly increasing indices below the lowest other shape.
   */
  lemma RepairBatchFacts(sibs: seq<Shape>, S: set<ShapeId>)
    requires RepairBatch(sibs, S).Some?
    ensures var b, ms, os := RepairBatch(sibs, S).value, Members(sibs, S), Others(sibs, S);
      |b| == |ms| && os != [] &&
      (forall i :: 0 <= i < |b| ==>
        b[i].id == ms[i].id && b[i].kind == ms[i].kind && b[i].isLocked == ms[i].isLocked &&
        b[i].index < os[0].index) &&
      StrictlyOrdered(Lowered(ms, b))
  {
    var b, ms, os := RepairBatch(sibs, S).value, Members(sibs, S), Others(sibs, S);
    var idx := IndicesBelow(os[0].index, |ms|);
    assert b == seq(|ms|, i requires 0 <= i < |ms| => IndexPatch(ms[i].id, ms[i].kind, ms[i].isLocked, idx[i]));
    forall i | 0 <= i < |b| ensures b[i].index == idx[i] && b[i].index < os[0].index {
    }
    var low := Lowered(ms, b);
    forall i, j | 0 <= i < j < |low| ensures low[i].index < low[j].index {
      assert low[i].index == idx[i] && low[j].index == idx[j];
    }
  }

  /** Pages in strict order below the first of an ordered run of other shapes, then that run. */
  lemma BelowThenOrdered(low: seq<Shape>, os: seq<Shape>)
    requires StrictlyOrdered(low) && StrictlyOrdered(os) && os != []
    requires forall i :: 0 <= i < |low| ==> low[i].index < os[0].index
    ensures StrictlyOrdered(low + os)
  {
    var t := low + os;
    forall i, j | 0 <= i < j < |t| ensures t[i].index < t[j].index {
      if j < |low| {
        assert t[i] == low[i] && t[j] == low[j];
      } else if i < |low| {
        assert t[i] == low[i] && t[j] == os[j - |low|];
        assert os[0].index <= os[j - |low|].index;
      } else {
        assert t[i] == os[i - |low|] && t[j] == os[j - |low|];
      }
    }
  }

  /**
   * When the repair issues a batch, the page's children afterwards are the imported pages, in
   * their previous order and with the new indices, followed by every other shape, untouched.
   */
  lemma RepairLowersPages(sibs: seq<Shape>, S: set<ShapeId>)
    requires ValidSiblings(sibs) && RepairBatch(sibs, S).Some?
    ensures var b := RepairBatch(sibs, S).value;
      Repaired(sibs, S) == Lowered(Members(sibs, S), b) + Others(sibs, S)
    ensures StrictlyOrdered(Repaired(sibs, S))
  {
    var b := RepairBatch(sibs, S).value;
    var patched := PatchAll(sibs, b);
    var target := Lowered(Members(sibs, S), b) + Others(sibs, S);
    PatchedIsRearranged(sibs, S);
    RearrangedIsOrdered(sibs, S);
    SortFacts(patched);
    SortedUnique(SortByIndex(patched), target);
  }

  /** Patching the children holds the same records as the lowered imported pages and the rest. */
  lemma PatchedIsRearranged(sibs: seq<Shape>, S: set<ShapeId>)
    requires ValidSiblings(sibs) && RepairBatch(sibs, S).Some?
    ensures var b := RepairBatch(sibs, S).value;
      multiset(PatchAll(sibs, b)) == multiset(Lowered(Members(sibs, S), b) + Others(sibs, S))
  {
    var b := RepairBatch(sibs, S).value;
    var ms, os := Members(sibs, S), Others(sibs, S);
    RepairBatchFacts(sibs, S);
    MembersDistinct(sibs, S);
    LoweredIsPatched(ms, b);
    OthersUnpatched(os, S, b);
    PatchAllFilter(sibs, S, b);
    FilterPartition(PatchAll(sibs, b), S);
  }

  /** The lowered imported pages followed by the rest are in strict paint order. */
  lemma RearrangedIsOrdered(sibs: seq<Shape>, S: set<ShapeId>)
    requires ValidSiblings(sibs) && RepairBatch(sibs, S).Some?
    ensures StrictlyOrdered(Lowered(Members(sibs, S), RepairBatch(sibs, S).value) + Others(sibs, S))
  {
    RepairBatchFacts(sibs, S);
    FilterOrdered(sibs, S);
    BelowThenOrdered(Lowered(Members(sibs, S), RepairBatch(sibs, S).value), Others(sibs, S));
  }

  /**
   * The z-order handler's guarantee: after it runs, no imported page lies above another shape,
   * the other shapes are the same records in the same order, the imported pages keep their order,
   * and running it again (it is re-entered through the after-change event) issues nothing.
   */
  lemma RepairedIsAtBottom(sibs: seq<Shape>, S: set<ShapeId>)
    requires ValidSiblings(sibs)
    ensures AtBottom(Repaired(sibs, S), S)
    ensures Others(Repaired(sibs, S), S) == Others(sibs, S)
    ensures Ids(Members(Repaired(sibs, S), S)) == Ids(Members(sibs, S))
    ensures RepairBatch(Repaired(sibs, S), S) == None
  {
    RepairIssuesNothingIff(sibs, S);
    match RepairBatch(sibs, S)
    case None =>
      if Others(sibs, S) == [] {
        NoOthersIsAtBottom(sibs, S);
      }
    case Some(b) =>
      RepairLowersPages(sibs, S);
      RepairBatchFacts(sibs, S);
      PagesThenOthers(Lowered(Members(sibs, S), b), Others(sibs, S), S);
      LoweredIds(Members(sibs, S), b);
  }

  lemma NoOthersIsAtBottom(sibs: seq<Shape>, S: set<ShapeId>)
    requires Others(sibs, S) == []
    ensures AtBottom(sibs, S)
  {
    FilterPartition(sibs, S);
    var ms := Members(sibs, S);
    assert multiset(sibs) == multiset(ms);
    forall k | 0 <= k < |sibs| ensures sibs[k].id in S {
      assert sibs[k] in multiset(sibs);
      assert sibs[k] in ms;
    }
  }

  lemma LoweredIds(ms: seq<Shape>, b: seq<IndexPatch>)
    requires |b| == |ms|
    ensures Ids(Lowered(ms, b)) == Ids(ms)
  {
  }

  /** Imported pages followed by other shapes are at the bottom, and the filters recover both runs. */
  lemma PagesThenOthers(low: seq<Shape>, os: seq<Shape>, S: set<ShapeId>)
    requires forall k :: 0 <= k < |low| ==> low[k].id in S
    requires forall k :: 0 <= k < |os| ==> os[k].id !in S
    ensures AtBottom(low + os, S)
    ensures Members(low + os, S) == low && Others(low + os, S) == os
  {
    FilterAll(low, S);
    FilterAll(os, S);
    FilterAppend(low, os, S);
    assert low + [] == low && [] + os == os;
    PagesThenOthersAtBottom(low, os, S);
  }

  lemma PagesThenOthersAtBottom(low: seq<Shape>, os: seq<Shape>, S: set<ShapeId>)
    requires forall k :: 0 <= k < |low| ==> low[k].id in S
    requires forall k :: 0 <= k < |os| ==> os[k].id !in S
    ensures AtBottom(low + os, S)
  {
    var r := low + os;
    assert forall k :: 0 <= k < |low| ==> r[k] == low[k];
    assert forall k :: |low| <= k < |r| ==> r[k] == os[k - |low|];
  }

  /**
   * The records the repair writes keep each page's own lock flag, so once the imported pages are
   * locked the lock guard lets every one of them through unchanged.
   */
  lemma RepairPassesLockGuard(sibs: seq<Shape>, S: set<ShapeId>)
    requires RepairBatch(sibs, S).Some?
    requires forall k :: 0 <= k < |sibs| && sibs[k].id in S ==> sibs[k].isLocked
    ensures var ms, b := Members(sibs, S), RepairBatch(sibs, S).value;
      forall i :: 0 <= i < |ms| ==> LockRewrite(S, ms[i], Lowered(ms, b)[i]) == Lowered(ms, b)[i]
  {
    var ms, b := Members(sibs, S), RepairBatch(sibs, S).value;
    RepairBatchFacts(sibs, S);
    forall i | 0 <= i < |ms| ensures ms[i].isLocked {
      var j :| 0 <= j < |sibs| && sibs[j] == ms[i];
    }
  }

  // ---------------------------------------------------------------------------------------------
  // Camera

  /** `boxes.reduce((acc, b) => acc.union(b), acc)`. */
  function UnionAll(acc: Box, boxes: seq<Box>): (r: Box)
    ensures Contains(r, acc)
    ensures forall k :: 0 <= k < |boxes| ==> Contains(r, boxes[k])
    decreases |boxes|
  {
    if boxes == [] then acc else UnionAll(Union(acc, boxes[0]), boxes[1..])
  }

  /** Every box that covers the seed and all the boxes covers their running union. */
  lemma {:induction false} UnionAllIsLeast(acc: Box, boxes: seq<Box>, c: Box)
    requires Contains(c, acc)
    requires forall k :: 0 <= k < |boxes| ==> Contains(c, boxes[k])
    ensures Contains(c, UnionAll(acc, boxes))
    decreases |boxes|
  {
    if boxes != [] {
      UnionIsLeast(acc, boxes[0], c);
      UnionAllIsLeast(Union(acc, boxes[0]), boxes[1..], c);
    }
  }

  /**
   * The camera bounds: the union of all page bounds, seeded with the first page's; there is none
   * for an empty page list (the source then fails reading the first page).
   */
  function TargetBounds(boxes: seq<Box>): (r: Option<Box>)
    ensures r.None? <==> boxes == []
    ensures r.Some? ==> forall k :: 0 <= k < |boxes| ==> Contains(r.value, boxes[k])
  {
    if boxes == [] then None else Some(UnionAll(boxes[0], boxes))
  }

  /** The camera bounds are the least box covering every page. */
  lemma TargetBoundsIsLeast(boxes: seq<Box>, c: Box)
    requires boxes != []
    requires forall k :: 0 <= k < |boxes| ==> Contains(c, boxes[k])
    ensures Contains(c, TargetBounds(boxes).value)
  {
    UnionAllIsLeast(boxes[0], boxes, c);
  }

  /** Screens narrower than this get the small horizontal camera padding. */
  const CompactViewportWidth: real := 840.0

  /** The camera constraint set for the pages: contain the bounds, fit their width, top-centred. */
  function CameraConstraintFor(bounds: Box, viewportWidth: real): CameraConstraint {
    CameraConstraint(bounds, if viewportWidth < CompactViewportWidth then 16.0 else 164.0, 64.0, 0.5, 0.0,
      "fit-x-100", "default", "contain")
  }
}
