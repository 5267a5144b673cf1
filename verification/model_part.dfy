/**
 * `FiguaModelPart`: the part tree, its construction with an explicit build
 * state (the source keeps it in static fields), texture-index ranges, the
 * transform setters and the TRS matrix.
 */
module ModelPart {
  import opened Wrappers
  import opened Vectors
  import opened Mat4
  import MathUtils

  /** The empty range a group starts with. */
  const GROUP_FIRST: int := 999999
  const GROUP_LAST: int := -999999

  /** Sine, cosine and the `(float)` cast, which the model leaves abstract. */
  datatype Env = Env(sin: real -> real, cos: real -> real, toFloat: real -> real)

  /**
   * One part. `first..last` is the range of texture indices of the geometry
   * leaves below it (its own index for a leaf); `luaIndex` its build position.
   * A leaf has no children list in the source; here it has none.
   */
  datatype Part = Part(
    name: string,
    luaIndex: int,
    first: int,
    last: int,
    hasVertexData: bool,
    children: seq<Part>,
    pivot: Vector3,
    rotation: Vector3,
    translation: Vector3,
    scale: Vector3,
    transform: Matrix4,
    needsTextureUpdate: bool,
    needsTransformUpdate: bool)

  /**
   * The static build state: the next texture index and `currentElements`,
   * the parts constructed since the last `resetBuildTree`, in construction
   * order, each as the constructor left it.
   */
  datatype Builder = Builder(texIndex: int, pending: seq<Part>) {
    /** `currentElements.size()`, the next part's Lua index. */
    const count: int := |pending|
  }

  /** The build state after `resetBuildTree`. */
  const FRESH := Builder(0, [])

  /** Fields of a part other than its children are equal. */
  predicate SameNode(a: Part, b: Part) {
    a.(children := []) == b.(children := [])
  }

  /** `setRot`: the rotation is given in degrees and kept in radians. */
  function SetRot(p: Part, newRot: Vector3): (r: Part)
    ensures r.rotation.ToDeg() == newRot
    ensures r.needsTextureUpdate && r.needsTransformUpdate
    ensures r.(rotation := p.rotation, needsTextureUpdate := p.needsTextureUpdate,
               needsTransformUpdate := p.needsTransformUpdate) == p
  {
    p.(rotation := newRot.ToRad(), needsTextureUpdate := true, needsTransformUpdate := true)
  }

  /** `setPivot`: the pivot is given in part units and kept in world units. */
  function SetPivot(p: Part, newPivot: Vector3): (r: Part)
    ensures MathUtils.WorldToPart(r.pivot) == newPivot
    ensures r.needsTextureUpdate && r.needsTransformUpdate
    ensures r.(pivot := p.pivot, needsTextureUpdate := p.needsTextureUpdate,
               needsTransformUpdate := p.needsTransformUpdate) == p
  {
    MathUtils.WorldPartInverse(newPivot);
    p.(pivot := MathUtils.PartToWorld(newPivot), needsTextureUpdate := true, needsTransformUpdate := true)
  }

  /**
   * `setTransform` as written: direct matrix, rotation and translation
   * zeroed, scale one, pivot kept; only the texture flag is raised, and a
   * pending transform flag stays as it was.
   */
  function SetTransform(p: Part, m: Matrix4): (r: Part)
    ensures r.transform == m && r.needsTextureUpdate
    ensures r.rotation == ZERO3 && r.translation == ZERO3 && r.scale == ONE3
    ensures r.needsTransformUpdate == p.needsTransformUpdate && r.pivot == p.pivot
    ensures r.(transform := p.transform, rotation := p.rotation, translation := p.translation,
               scale := p.scale, needsTextureUpdate := p.needsTextureUpdate) == p
  {
    p.(rotation := ZERO3, translation := ZERO3, scale := ONE3, transform := m, needsTextureUpdate := true)
  }

  /** `setTransform` as its comment intends: the direct matrix is final until a setter runs. */
  function SetTransformIntended(p: Part, m: Matrix4): (r: Part)
    ensures r == SetTransform(p, m).(needsTransformUpdate := false)
  {
    p.(rotation := ZERO3, translation := ZERO3, scale := ONE3, transform := m,
       needsTextureUpdate := true, needsTransformUpdate := false)
  }

  /** The matrix `Mat4.Scale(0, 0, 0)` that hides an invisible part. */
  const HIDDEN: Matrix4 := Mat4.Scale(0.0, 0.0, 0.0)

  /** The part as the constructor leaves it, before `setRot` and `setPivot`. */
  function Blank(b: Builder, name: string, hasVertexData: bool): Part {
    Part(name, b.count,
         if hasVertexData then b.texIndex else GROUP_FIRST,
         if hasVertexData then b.texIndex else GROUP_LAST,
         hasVertexData, [], ZERO3, ZERO3, ZERO3, ONE3, IDENTITY, false, false)
  }

  /** The build state after constructing `p`: it joins the element list, and a leaf also takes a texture index. */
  function Next(b: Builder, p: Part, hasVertexData: bool): Builder {
    Builder(if hasVertexData then b.texIndex + 1 else b.texIndex, b.pending + [p])
  }

  /** The part after the constructor's `setRot(rot)` and `setPivot(pivot)`. */
  function Placed(b: Builder, name: string, pivot: Vector3, rot: Vector3, hasVertexData: bool): Part {
    SetPivot(SetRot(Blank(b, name, hasVertexData), rot), pivot)
  }

  /**
   * The constructor. A leaf takes the next texture index; a group takes the
   * empty range. Every part takes the next element slot as its `luaIndex`.
   * An invisible part is hidden by a zero-scale direct transform.
   */
  function NewPart(b: Builder, name: string, pivot: Vector3, rot: Vector3,
                   hasVertexData: bool, visible: bool): (r: (Part, Builder))
    ensures var (p, b') := r;
      p.name == name && p.luaIndex == b.count && b'.pending == b.pending + [p]
      && p.children == [] && p.hasVertexData == hasVertexData
      && (hasVertexData ==> p.first == p.last == b.texIndex && b'.texIndex == b.texIndex + 1)
      && (!hasVertexData ==> p.first == GROUP_FIRST && p.last == GROUP_LAST && b'.texIndex == b.texIndex)
      && p.rotation == (if visible then rot.ToRad() else ZERO3)
      && MathUtils.WorldToPart(p.pivot) == pivot
      && p.translation == ZERO3 && p.scale == ONE3
      && p.transform == (if visible then IDENTITY else HIDDEN)
      && p.needsTextureUpdate && p.needsTransformUpdate
  {
    var p := Placed(b, name, pivot, rot, hasVertexData);
    var q := if visible then p else SetTransform(p, HIDDEN);
    (q, Next(b, q, hasVertexData))
  }

  /**
   * The constructor with the intended `setTransform`: the same part, except
   * that an invisible one has no transform update pending.
   */
  function NewPartIntended(b: Builder, name: string, pivot: Vector3, rot: Vector3,
                           hasVertexData: bool, visible: bool): (r: (Part, Builder))
    ensures r.1 == Next(b, r.0, hasVertexData)
    ensures r.0.needsTransformUpdate == visible
    ensures r.0.transform == (if visible then IDENTITY else HIDDEN)
  {
    var p := Placed(b, name, pivot, rot, hasVertexData);
    var q := if visible then p else SetTransformIntended(p, HIDDEN);
    (q, Next(b, q, hasVertexData))
  }

  /** The two constructors differ only in the pending transform flag of an invisible part. */
  lemma NewPartIntendedDiffers(b: Builder, name: string, pivot: Vector3, rot: Vector3,
                               hasVertexData: bool, visible: bool)
    ensures var (p, b1) := NewPart(b, name, pivot, rot, hasVertexData, visible);
      var (q, b2) := NewPartIntended(b, name, pivot, rot, hasVertexData, visible);
      b1 == Next(b, p, hasVertexData) && b2 == Next(b, q, hasVertexData)
      && q.(needsTransformUpdate := true) == p
  {
    var placed := Placed(b, name, pivot, rot, hasVertexData);
    assert placed.needsTransformUpdate;
    if !visible {
      assert NewPart(b, name, pivot, rot, hasVertexData, visible).0 == SetTransform(placed, HIDDEN);
      assert SetTransformIntended(placed, HIDDEN).(needsTransformUpdate := true) == SetTransform(placed, HIDDEN);
    }
  }

  function Min(a: int, b: int): int {
    if a < b then a else b
  }

  function Max(a: int, b: int): int {
    if a < b then b else a
  }

  /**
   * `addChild` on a part with no parent: append the child and widen the
   * range to cover the child's. A leaf has no children list, so adding to it
   * fails with a `NullPointerException`.
   */
  function AddChild(parent: Part, child: Part): (r: Result<Part>)
    ensures r.Err? <==> parent.hasVertexData
    ensures r.Err? ==> r.error == NullPointer
    ensures r.Ok? ==>
      r.value.children == parent.children + [child]
      && r.value.first <= parent.first && r.value.first <= child.first
      && (r.value.first == parent.first || r.value.first == child.first)
      && r.value.last >= parent.last && r.value.last >= child.last
      && (r.value.last == parent.last || r.value.last == child.last)
      && SameNode(r.value.(first := parent.first, last := parent.last), parent)
  {
    if parent.hasVertexData then Err(NullPointer)
    else Ok(parent.(children := parent.children + [child],
                    first := Min(parent.first, child.first),
                    last := Max(parent.last, child.last)))
  }

  /** `path` leads from `p` through child positions to a group. */
  predicate ValidPath(p: Part, path: seq<int>)
    decreases |path|
  {
    if path == [] then !p.hasVertexData
    else 0 <= path[0] < |p.children| && ValidPath(p.children[path[0]], path[1..])
  }

  /**
   * `addChild` on the group at `path` below `root`: `updateParentRange`
   * then widens every ancestor on the way back up by the range below it.
   */
  function AddChildAt(root: Part, path: seq<int>, child: Part): (r: Part)
    requires ValidPath(root, path)
    decreases |path|
    ensures |r.children| == |root.children| + (if path == [] then 1 else 0)
    ensures r.first <= root.first && r.first <= child.first
    ensures r.last >= root.last && r.last >= child.last
    ensures SameNode(r.(first := root.first, last := root.last), root)
  {
    if path == [] then
      AddChild(root, child).value
    else
      var i := path[0];
      var c := AddChildAt(root.children[i], path[1..], child);
      root.(children := root.children[i := c], first := Min(root.first, c.first), last := Max(root.last, c.last))
  }

  /** Under the range invariant, the root's range widens to exactly cover the child's. */
  lemma {:induction false} AddChildAtRange(root: Part, path: seq<int>, child: Part)
    requires ValidPath(root, path) && RangesFolded(root) && RangesFolded(child)
    ensures AddChildAt(root, path, child).first == Min(root.first, child.first)
    ensures AddChildAt(root, path, child).last == Max(root.last, child.last)
  {
    AddChildAtKeepsRanges(root, path, child);
    if path != [] {
      var i := path[0];
      AddChildAtRange(root.children[i], path[1..], child);
      MinFirstBelow(root.children, i);
      MaxLastAbove(root.children, i);
    }
  }

  lemma {:induction false} MinFirstBelow(cs: seq<Part>, i: int)
    requires 0 <= i < |cs|
    ensures MinFirst(cs) <= cs[i].first
    decreases |cs|
  {
    if i < |cs| - 1 {
      MinFirstBelow(cs[..|cs| - 1], i);
    }
  }

  lemma {:induction false} MaxLastAbove(cs: seq<Part>, i: int)
    requires 0 <= i < |cs|
    ensures MaxLast(cs) >= cs[i].last
    decreases |cs|
  {
    if i < |cs| - 1 {
      MaxLastAbove(cs[..|cs| - 1], i);
    }
  }

  lemma AddChildAtRoot(root: Part, child: Part)
    requires !root.hasVertexData
    ensures AddChildAt(root, [], child) == AddChild(root, child).value
  {
  }

  /** The least `first` over some parts, starting from a group's empty range. */
  function MinFirst(cs: seq<Part>): int {
    if cs == [] then GROUP_FIRST else Min(MinFirst(cs[..|cs| - 1]), cs[|cs| - 1].first)
  }

  function MaxLast(cs: seq<Part>): int {
    if cs == [] then GROUP_LAST else Max(MaxLast(cs[..|cs| - 1]), cs[|cs| - 1].last)
  }

  /**
   * The range invariant `addChild` maintains: a leaf's range is its own index
   * and it has no children; a group's range folds its children's ranges in
   * with min/max, starting from the empty range.
   */
  predicate RangesFolded(p: Part) {
    (p.hasVertexData ==> p.first == p.last && p.children == [])
    && (!p.hasVertexData ==> p.first == MinFirst(p.children) && p.last == MaxLast(p.children))
    && forall i :: 0 <= i < |p.children| ==> RangesFolded(p.children[i])
  }

  lemma MinFirstReplace(cs: seq<Part>, i: int, c: Part)
    requires 0 <= i < |cs|
    requires c.first <= cs[i].first
    ensures MinFirst(cs[i := c]) == Min(MinFirst(cs), c.first)
    decreases |cs|
  {
    if i < |cs| - 1 {
      assert cs[i := c][..|cs| - 1] == cs[..|cs| - 1][i := c];
      MinFirstReplace(cs[..|cs| - 1], i, c);
    } else {
      assert cs[i := c][..|cs| - 1] == cs[..|cs| - 1];
      MinFirstBound(cs[..|cs| - 1]);
    }
  }

  lemma MaxLastReplace(cs: seq<Part>, i: int, c: Part)
    requires 0 <= i < |cs|
    requires c.last >= cs[i].last
    ensures MaxLast(cs[i := c]) == Max(MaxLast(cs), c.last)
    decreases |cs|
  {
    if i < |cs| - 1 {
      assert cs[i := c][..|cs| - 1] == cs[..|cs| - 1][i := c];
      MaxLastReplace(cs[..|cs| - 1], i, c);
    } else {
      assert cs[i := c][..|cs| - 1] == cs[..|cs| - 1];
    }
  }

  lemma MinFirstBound(cs: seq<Part>)
    ensures MinFirst(cs) <= GROUP_FIRST
  {
  }

  /** Adding a child anywhere keeps every range equal to the fold of the ranges below it. */
  lemma {:induction false} AddChildAtKeepsRanges(root: Part, path: seq<int>, child: Part)
    requires ValidPath(root, path) && RangesFolded(root) && RangesFolded(child)
    ensures RangesFolded(AddChildAt(root, path, child))
    decreases |path|
  {
    var r := AddChildAt(root, path, child);
    if path == [] {
      assert r.children[..|r.children| - 1] == root.children;
      forall j | 0 <= j < |r.children|
        ensures RangesFolded(r.children[j])
      {
        if j == |root.children| {
          assert r.children[j] == child;
        } else {
          assert r.children[j] == root.children[j];
        }
      }
    } else {
      var i := path[0];
      var c := AddChildAt(root.children[i], path[1..], child);
      AddChildAtKeepsRanges(root.children[i], path[1..], child);
      MinFirstReplace(root.children, i, c);
      MaxLastReplace(root.children, i, c);
      assert r.children == root.children[i := c];
      forall j | 0 <= j < |r.children|
        ensures RangesFolded(r.children[j])
      {
        if j != i {
          assert r.children[j] == root.children[j];
        }
      }
    }
  }

  /** The parts of a subtree in pre-order: the order they were constructed in. */
  function Flatten(p: Part): (r: seq<Part>)
    decreases p
    ensures |r| >= 1 && r[0] == p
  {
    [p] + FlattenAll(p.children)
  }

  function FlattenAll(cs: seq<Part>): seq<Part>
    decreases cs
  {
    if cs == [] then [] else Flatten(cs[0]) + FlattenAll(cs[1..])
  }

  /**
   * `setRot` on the part at pre-order position `i` of the subtree, reached
   * in place: the part object the element array holds at that position.
   */
  function SetRotAt(p: Part, i: int, v: Vector3): (r: Part)
    requires 0 <= i < |Flatten(p)|
    decreases p, 1
  {
    if i == 0 then SetRot(p, v) else p.(children := SetRotAtAll(p.children, i - 1, v))
  }

  function SetRotAtAll(cs: seq<Part>, i: int, v: Vector3): (r: seq<Part>)
    requires 0 <= i < |FlattenAll(cs)|
    decreases cs, 0
    ensures |r| == |cs|
  {
    var n := |Flatten(cs[0])|;
    if i < n then [SetRotAt(cs[0], i, v)] + cs[1..]
    else [cs[0]] + SetRotAtAll(cs[1..], i - n, v)
  }

  /** Two part lists agree entry by entry on every field but the children. */
  predicate SameNodes(a: seq<Part>, b: seq<Part>) {
    |a| == |b| && forall j :: 0 <= j < |a| ==> SameNode(a[j], b[j])
  }

  /** `g` is `f` with entry `i` rotated to `v` and every other entry's own fields kept. */
  predicate RotatedAt(g: seq<Part>, f: seq<Part>, i: int, v: Vector3) {
    |g| == |f| && 0 <= i < |f| && g[i] == SetRot(f[i], v)
    && forall j :: 0 <= j < |f| && j != i ==> SameNode(g[j], f[j])
  }

  /**
   * Rotating the part at position `i` in place changes exactly that entry
   * of the pre-order list; the other parts keep their own fields, and only
   * the ancestors' child lists see the rotated part.
   */
  lemma {:induction false} FlattenSetRotAt(p: Part, i: int, v: Vector3)
    requires 0 <= i < |Flatten(p)|
    ensures RotatedAt(Flatten(SetRotAt(p, i, v)), Flatten(p), i, v)
    decreases p, 1
  {
    var q := SetRotAt(p, i, v);
    if i == 0 {
      RotatedLeft([q], [p], FlattenAll(p.children), FlattenAll(p.children), 0, v);
    } else {
      FlattenSetRotAtAll(p.children, i - 1, v);
      RotatedRight([q], [p], FlattenAll(q.children), FlattenAll(p.children), i - 1, v);
    }
  }

  lemma {:induction false} FlattenSetRotAtAll(cs: seq<Part>, i: int, v: Vector3)
    requires 0 <= i < |FlattenAll(cs)|
    ensures RotatedAt(FlattenAll(SetRotAtAll(cs, i, v)), FlattenAll(cs), i, v)
    decreases cs, 0
  {
    var rs := SetRotAtAll(cs, i, v);
    var n := |Flatten(cs[0])|;
    assert rs[1..] == (if i < n then cs[1..] else SetRotAtAll(cs[1..], i - n, v));
    if i < n {
      FlattenSetRotAt(cs[0], i, v);
      RotatedLeft(Flatten(rs[0]), Flatten(cs[0]), FlattenAll(cs[1..]), FlattenAll(cs[1..]), i, v);
    } else {
      FlattenSetRotAtAll(cs[1..], i - n, v);
      RotatedRight(Flatten(cs[0]), Flatten(cs[0]), FlattenAll(rs[1..]), FlattenAll(cs[1..]), i - n, v);
    }
  }

  lemma RotatedLeft(g1: seq<Part>, f1: seq<Part>, g2: seq<Part>, f2: seq<Part>, i: int, v: Vector3)
    requires RotatedAt(g1, f1, i, v) && SameNodes(g2, f2)
    ensures RotatedAt(g1 + g2, f1 + f2, i, v)
  {
    forall j | 0 <= j < |f1 + f2| && j != i
      ensures SameNode((g1 + g2)[j], (f1 + f2)[j])
    {
      if j >= |f1| {
        assert (g1 + g2)[j] == g2[j - |f1|] && (f1 + f2)[j] == f2[j - |f1|];
      }
    }
  }

  lemma RotatedRight(g1: seq<Part>, f1: seq<Part>, g2: seq<Part>, f2: seq<Part>, i: int, v: Vector3)
    requires SameNodes(g1, f1) && RotatedAt(g2, f2, i, v)
    ensures RotatedAt(g1 + g2, f1 + f2, |f1| + i, v)
  {
    forall j | 0 <= j < |f1 + f2| && j != |f1| + i
      ensures SameNode((g1 + g2)[j], (f1 + f2)[j])
    {
      if j >= |f1| {
        assert (g1 + g2)[j] == g2[j - |f1|] && (f1 + f2)[j] == f2[j - |f1|];
      }
    }
  }

  /** The texture indices of the geometry leaves of a subtree, in pre-order. */
  function LeafIndices(p: Part): seq<int>
    decreases p
  {
    (if p.hasVertexData then [p.first] else []) + LeafIndicesAll(p.children)
  }

  function LeafIndicesAll(cs: seq<Part>): seq<int>
    decreases cs
  {
    if cs == [] then [] else LeafIndices(cs[0]) + LeafIndicesAll(cs[1..])
  }

  /** `lo, lo + 1, ..., lo + n - 1`. */
  function Run(lo: int, n: nat): (s: seq<int>)
    ensures |s| == n && forall i :: 0 <= i < n ==> s[i] == lo + i
  {
    if n == 0 then [] else Run(lo, n - 1) + [lo + n - 1]
  }

  /** Membership in the leaf indices of a child list is membership below some child. */
  lemma {:induction false} LeafIndicesAllMember(cs: seq<Part>, x: int)
    ensures x in LeafIndicesAll(cs) <==> exists i :: 0 <= i < |cs| && x in LeafIndices(cs[i])
    decreases |cs|
  {
    if cs != [] {
      LeafIndicesAllMember(cs[1..], x);
      if x in LeafIndicesAll(cs[1..]) {
        var i :| 0 <= i < |cs[1..]| && x in LeafIndices(cs[1..][i]);
        assert cs[i + 1] == cs[1..][i];
      }
      if exists i :: 0 <= i < |cs| && x in LeafIndices(cs[i]) {
        var i :| 0 <= i < |cs| && x in LeafIndices(cs[i]);
        if i > 0 {
          assert cs[1..][i - 1] == cs[i];
        }
      }
    }
  }

  /** The fold either stays at the empty range's bound or picks some part's `first`. */
  lemma {:induction false} MinFirstPicks(cs: seq<Part>)
    ensures MinFirst(cs) == GROUP_FIRST || exists i :: 0 <= i < |cs| && MinFirst(cs) == cs[i].first
    decreases |cs|
  {
    if cs != [] {
      var init := cs[..|cs| - 1];
      MinFirstPicks(init);
      if MinFirst(cs) != cs[|cs| - 1].first && MinFirst(init) != GROUP_FIRST {
        var i :| 0 <= i < |init| && MinFirst(init) == init[i].first;
        assert cs[i] == init[i];
      }
    }
  }

  lemma {:induction false} MaxLastPicks(cs: seq<Part>)
    ensures MaxLast(cs) == GROUP_LAST || exists i :: 0 <= i < |cs| && MaxLast(cs) == cs[i].last
    decreases |cs|
  {
    if cs != [] {
      var init := cs[..|cs| - 1];
      MaxLastPicks(init);
      if MaxLast(cs) != cs[|cs| - 1].last && MaxLast(init) != GROUP_LAST {
        var i :| 0 <= i < |init| && MaxLast(init) == init[i].last;
        assert cs[i] == init[i];
      }
    }
  }

  /** Leaf indices that the empty range's bounds do not cut off. */
  predicate LeavesInBounds(p: Part) {
    forall x :: x in LeafIndices(p) ==> GROUP_LAST <= x <= GROUP_FIRST
  }

  /**
   * `first..last` is exactly the span of the leaf indices below: both ends
   * are leaf indices and every leaf index lies between them; with no leaf
   * below, the range is still the empty one a group starts with.
   */
  predicate SpansLeaves(p: Part) {
    var ls := LeafIndices(p);
    (ls == [] ==> p.first == GROUP_FIRST && p.last == GROUP_LAST)
    && (ls != [] ==> p.first in ls && p.last in ls && forall x :: x in ls ==> p.first <= x <= p.last)
  }

  /** Under the range invariant, every part's range spans exactly the leaves below it. */
  lemma {:induction false} RangeIsLeafSpan(p: Part)
    requires RangesFolded(p) && LeavesInBounds(p)
    ensures SpansLeaves(p)
    decreases p
  {
    if !p.hasVertexData {
      var cs := p.children;
      assert LeafIndices(p) == LeafIndicesAll(cs);
      forall i | 0 <= i < |cs|
        ensures SpansLeaves(cs[i])
      {
        forall x | x in LeafIndices(cs[i])
          ensures GROUP_LAST <= x <= GROUP_FIRST
        {
          InLeavesOf(cs, i, x);
        }
        RangeIsLeafSpan(cs[i]);
      }
      ChildSpans(p);
    }
  }

  /** The group step of `RangeIsLeafSpan`, once every child spans its leaves. */
  lemma ChildSpans(p: Part)
    requires RangesFolded(p) && LeavesInBounds(p) && !p.hasVertexData
    requires forall i :: 0 <= i < |p.children| ==> SpansLeaves(p.children[i])
    ensures SpansLeaves(p)
  {
    var cs := p.children;
    var ls := LeafIndices(p);
    LeavesWithinRange(p);
    if ls == [] {
      assert ls == LeafIndicesAll(cs);
      MinFirstPicks(cs);
      MaxLastPicks(cs);
      if p.first != GROUP_FIRST {
        var i :| 0 <= i < |cs| && p.first == cs[i].first;
        NoLeavesBelow(cs, i);
      }
      if p.last != GROUP_LAST {
        var i :| 0 <= i < |cs| && p.last == cs[i].last;
        NoLeavesBelow(cs, i);
      }
    } else {
      PicksLeaf(p, true);
      PicksLeaf(p, false);
    }
  }

  /** Every leaf index below a folded group lies within its range. */
  lemma LeavesWithinRange(p: Part)
    requires RangesFolded(p) && !p.hasVertexData
    ensures forall x :: x in LeafIndices(p) ==> p.first <= x <= p.last
  {
    var cs := p.children;
    assert LeafIndices(p) == LeafIndicesAll(cs);
    forall x | x in LeafIndices(p)
      ensures p.first <= x <= p.last
    {
      var i := ChildOf(cs, x);
      MinFirstBelow(cs, i);
      MaxLastAbove(cs, i);
    }
  }

  /** With a leaf below, the fold picks a child that has leaves, hence a leaf index. */
  lemma PicksLeaf(p: Part, low: bool)
    requires RangesFolded(p) && LeavesInBounds(p) && !p.hasVertexData
    requires forall i :: 0 <= i < |p.children| ==> SpansLeaves(p.children[i])
    requires LeafIndices(p) != []
    ensures low ==> p.first in LeafIndices(p)
    ensures !low ==> p.last in LeafIndices(p)
  {
    var cs := p.children;
    var ls := LeafIndices(p);
    var j := ChildOf(cs, ls[0]);
    if low {
      PicksLeafLow(p, j);
    } else {
      PicksLeafHigh(p, j);
    }
  }

  lemma PicksLeafLow(p: Part, j: int)
    requires RangesFolded(p) && LeavesInBounds(p) && !p.hasVertexData
    requires forall i :: 0 <= i < |p.children| ==> SpansLeaves(p.children[i])
    requires 0 <= j < |p.children| && LeafIndices(p.children[j]) != []
    ensures p.first in LeafIndices(p)
  {
    var cs := p.children;
    assert LeafIndices(p) == LeafIndicesAll(cs);
    var f := cs[j].first;
    assert SpansLeaves(cs[j]);
    InLeavesOf(cs, j, f);
    MinFirstBelow(cs, j);
    MinFirstPicks(cs);
    if p.first != f {
      var i :| 0 <= i < |cs| && p.first == cs[i].first;
      assert SpansLeaves(cs[i]);
      InLeavesOf(cs, i, cs[i].first);
    }
  }

  lemma PicksLeafHigh(p: Part, j: int)
    requires RangesFolded(p) && LeavesInBounds(p) && !p.hasVertexData
    requires forall i :: 0 <= i < |p.children| ==> SpansLeaves(p.children[i])
    requires 0 <= j < |p.children| && LeafIndices(p.children[j]) != []
    ensures p.last in LeafIndices(p)
  {
    var cs := p.children;
    assert LeafIndices(p) == LeafIndicesAll(cs);
    var f := cs[j].last;
    assert SpansLeaves(cs[j]);
    InLeavesOf(cs, j, f);
    MaxLastAbove(cs, j);
    MaxLastPicks(cs);
    if p.last != f {
      var i :| 0 <= i < |cs| && p.last == cs[i].last;
      assert SpansLeaves(cs[i]);
      InLeavesOf(cs, i, cs[i].last);
    }
  }

  /** A leaf index of a child list lies below one of the children. */
  lemma ChildOf(cs: seq<Part>, x: int) returns (i: int)
    requires x in LeafIndicesAll(cs)
    ensures 0 <= i < |cs| && x in LeafIndices(cs[i])
  {
    LeafIndicesAllMember(cs, x);
    i :| 0 <= i < |cs| && x in LeafIndices(cs[i]);
  }

  /** A child list without leaf indices has no leaf below any child. */
  lemma NoLeavesBelow(cs: seq<Part>, i: int)
    requires 0 <= i < |cs| && LeafIndicesAll(cs) == []
    ensures LeafIndices(cs[i]) == []
  {
    if LeafIndices(cs[i]) != [] {
      InLeavesOf(cs, i, LeafIndices(cs[i])[0]);
    }
  }

  /** A leaf index below one child is a leaf index of the child list. */
  lemma InLeavesOf(cs: seq<Part>, i: int, x: int)
    requires 0 <= i < |cs| && x in LeafIndices(cs[i])
    ensures x in LeafIndicesAll(cs)
  {
    LeafIndicesAllMember(cs, x);
  }

  /**
   * The part tree after `resetBuildTree`. Every part shares one element
   * array: what `currentElements` held at the reset. That list starts with
   * `stale`, the parts that builds which threw before their reset left
   * behind, and goes on with the tree's own parts in construction order.
   * Those are the very objects of the tree, so the array is derived from
   * `root` and a change to a part shows in both.
   */
  datatype Tree = Tree(root: Part, stale: seq<Part>) {
    const elements: seq<Part> := stale + Flatten(root)
  }

  /**
   * `resetBuildTree` once `root`'s parts are the last ones constructed:
   * hands the whole element list, `stale` parts first, to the tree and
   * restarts the build state.
   */
  function ResetBuildTree(root: Part, stale: seq<Part>): (r: (Tree, Builder))
    ensures r.0.root == root && r.1 == FRESH
    ensures |r.0.elements| == |stale| + |Flatten(root)|
    ensures r.0.elements[..|stale|] == stale && r.0.elements[|stale|] == root
  {
    (Tree(root, stale), FRESH)
  }

  /** `getLastChildTexIndex`. */
  function LastTexIndex(t: Tree): int {
    t.root.last
  }

  /**
   * `updateTransformTRS`, in `Matrix4`'s multiply order:
   * translate(-pivot), scale, rotZ, rotY, rotX, translate(translation + pivot).
   */
  function Trs(p: Part, env: Env): Matrix4 {
    Rotated(p, env).Multiply(TranslateVec(p.translation.Add(p.pivot)))
  }

  /** The first five factors of `Trs`: translate(-pivot), scale, rotZ, rotY, rotX. */
  function Rotated(p: Part, env: Env): Matrix4 {
    TranslateVec(p.pivot.Scale(-1.0))
      .Multiply(ScaleVec(p.scale))
      .Multiply(RotateZ(env.sin(p.rotation.z), env.cos(p.rotation.z)))
      .Multiply(RotateY(env.sin(p.rotation.y), env.cos(p.rotation.y)))
      .Multiply(RotateX(env.sin(p.rotation.x), env.cos(p.rotation.x)))
  }

  /**
   * Applied to a column vector, the TRS matrix moves the pivot to the
   * origin, scales, rotates about Z, then Y, then X, and moves back by
   * pivot plus translation.
   */
  lemma TrsOrder(p: Part, env: Env, v: Vector4)
    ensures var t1 := TranslateVec(p.pivot.Scale(-1.0));
      var s := ScaleVec(p.scale);
      var rz := RotateZ(env.sin(p.rotation.z), env.cos(p.rotation.z));
      var ry := RotateY(env.sin(p.rotation.y), env.cos(p.rotation.y));
      var rx := RotateX(env.sin(p.rotation.x), env.cos(p.rotation.x));
      var t2 := TranslateVec(p.translation.Add(p.pivot));
      Transform(v, Trs(p, env))
        == Transform(Transform(Transform(Transform(Transform(Transform(v, t1), s), rz), ry), rx), t2)
  {
    var t1 := TranslateVec(p.pivot.Scale(-1.0));
    var s := ScaleVec(p.scale);
    var rz := RotateZ(env.sin(p.rotation.z), env.cos(p.rotation.z));
    var ry := RotateY(env.sin(p.rotation.y), env.cos(p.rotation.y));
    var rx := RotateX(env.sin(p.rotation.x), env.cos(p.rotation.x));
    var t2 := TranslateVec(p.translation.Add(p.pivot));
    var m1 := t1.Multiply(s);
    var m2 := m1.Multiply(rz);
    var m3 := m2.Multiply(ry);
    var m4 := m3.Multiply(rx);
    TransformComposes(v, m4, t2);
    TransformComposes(v, m3, rx);
    TransformComposes(v, m2, ry);
    TransformComposes(v, m1, rz);
    TransformComposes(v, t1, s);
  }

  /** With no rotation, unit scale and no translation the TRS matrix is the identity, whatever the pivot. */
  lemma TrsAtRest(p: Part, env: Env)
    requires env.sin(0.0) == 0.0 && env.cos(0.0) == 1.0
    requires p.rotation == ZERO3 && p.scale == ONE3 && p.translation == ZERO3
    ensures Trs(p, env) == IDENTITY
  {
    RotatedAtRest(p, env);
    TranslateComposes(p.pivot.Scale(-1.0), p.translation.Add(p.pivot));
    assert p.pivot.Scale(-1.0).Add(p.translation.Add(p.pivot)) == ZERO3;
  }

  lemma RotatedAtRest(p: Part, env: Env)
    requires env.sin(0.0) == 0.0 && env.cos(0.0) == 1.0
    requires p.rotation == ZERO3 && p.scale == ONE3
    ensures Rotated(p, env) == TranslateVec(p.pivot.Scale(-1.0))
  {
    RestFactors(p, env);
    UnitFactors(TranslateVec(p.pivot.Scale(-1.0)), ScaleVec(p.scale),
                RotateZ(env.sin(p.rotation.z), env.cos(p.rotation.z)),
                RotateY(env.sin(p.rotation.y), env.cos(p.rotation.y)),
                RotateX(env.sin(p.rotation.x), env.cos(p.rotation.x)));
  }

  lemma RestFactors(p: Part, env: Env)
    requires env.sin(0.0) == 0.0 && env.cos(0.0) == 1.0
    requires p.rotation == ZERO3 && p.scale == ONE3
    ensures ScaleVec(p.scale) == IDENTITY
    ensures RotateZ(env.sin(p.rotation.z), env.cos(p.rotation.z)) == IDENTITY
    ensures RotateY(env.sin(p.rotation.y), env.cos(p.rotation.y)) == IDENTITY
    ensures RotateX(env.sin(p.rotation.x), env.cos(p.rotation.x)) == IDENTITY
  {
    ScaleComposes(ONE3, ONE3);
    RotationsAtZeroAngle();
  }

  lemma UnitFactors(a: Matrix4, m1: Matrix4, m2: Matrix4, m3: Matrix4, m4: Matrix4)
    requires m1 == IDENTITY && m2 == IDENTITY && m3 == IDENTITY && m4 == IDENTITY
    ensures a.Multiply(m1).Multiply(m2).Multiply(m3).Multiply(m4) == a
  {
    IdentityIsUnit(a);
  }
}
