/**
 * `ModelPartDeserializer`: builds the part tree from an already-parsed NBT
 * record, depth first, threading the build state through construction, and
 * resets the build state once the whole tree is attached.
 */
module PartDeserializer {
  import opened Wrappers
  import opened Vectors
  import opened ModelPart

  /**
   * One part compound, as far as the deserializer reads it. A float list
   * of the wrong element type reads as the empty list; `visibility` holds
   * the byte `getBoolean` would read, already decoded. `hasChildren` says
   * whether the `children` key is present; `children` is its list then.
   */
  datatype PartNbt = PartNbt(
    name: Option<string>,
    pivot: Option<seq<real>>,
    rotation: Option<seq<real>>,
    visibility: Option<bool>,
    hasChildren: bool,
    children: seq<PartNbt>)

  /** The root element: a compound, or an element of any other NBT type. */
  datatype Nbt = Compound(part: PartNbt) | NotCompound

  const NOT_COMPOUND: string := "Illegal nbt type, must be Compound."

  /** `nbtToVector3`: the first three floats; a shorter list fails on `get`. */
  function ToVector3(list: seq<real>): (r: Result<Vector3>)
    ensures r.Ok? <==> |list| >= 3
    ensures r.Err? ==> r.error == IndexOutOfBounds
    ensures r.Ok? ==> [r.value.x, r.value.y, r.value.z] == list[..3]
  {
    if |list| < 3 then Err(IndexOutOfBounds) else Ok(Vector3(list[0], list[1], list[2]))
  }

  /** A vector key read when present, zero when absent. */
  function VectorOr(key: Option<seq<real>>): (r: Result<Vector3>)
    ensures key.None? ==> r == Ok(ZERO3)
    ensures key.Some? ==> r == ToVector3(key.value)
  {
    if key.None? then Ok(ZERO3) else ToVector3(key.value)
  }

  /** `getString("name")`: the empty string when the key is absent. */
  function NameOf(n: PartNbt): string {
    if n.name.Some? then n.name.value else ""
  }

  /** Missing visibility means visible. */
  function VisibleOf(n: PartNbt): bool {
    n.visibility.None? || n.visibility.value
  }

  /** A build step's part, or the exception it threw, and the build state it left behind. */
  datatype Built = Built(result: Result<Part>, builder: Builder)

  /** A part constructor: build state, name, pivot, rotation, leaf flag, visibility. */
  type Maker = (Builder, string, Vector3, Vector3, bool, bool) -> (Part, Builder)

  /** The constructor `new FiguaModelPart(name, pivot, rot, hasVertexData, visible)`. */
  const CONSTRUCTOR: Maker := NewPart

  /**
   * What the tree building relies on of one constructed part: its name, Lua
   * index, no children, the leaf flag, and the index range and build-state step.
   */
  predicate Constructs(b: Builder, name: string, leaf: bool, made: (Part, Builder)) {
    var (p, b') := made;
    p.name == name && p.luaIndex == b.count && p.children == [] && p.hasVertexData == leaf
    && b'.pending == b.pending + [p]
    && (leaf ==> p.first == p.last == b.texIndex && b'.texIndex == b.texIndex + 1)
    && (!leaf ==> p.first == GROUP_FIRST && p.last == GROUP_LAST && b'.texIndex == b.texIndex)
  }

  /** `mk` constructs every part as the source's constructor does. */
  ghost predicate Shaped(mk: Maker) {
    forall b, name, pivot, rot, leaf, visible ::
      Constructs(b, name, leaf, mk(b, name, pivot, rot, leaf, visible))
  }

  lemma ConstructorShaped()
    ensures Shaped(CONSTRUCTOR)
  {
    forall b, name, pivot, rot, leaf, visible
      ensures Constructs(b, name, leaf, CONSTRUCTOR(b, name, pivot, rot, leaf, visible))
    {
      assert CONSTRUCTOR(b, name, pivot, rot, leaf, visible) == NewPart(b, name, pivot, rot, leaf, visible);
    }
  }

  /** The constructor with the intended `setTransform` (see `NewPartIntended`). */
  const INTENDED_CONSTRUCTOR: Maker := NewPartIntended

  /** The corrected constructor builds the same tree shape, so every lemma about `BuildWith` covers it too. */
  lemma IntendedConstructorShaped()
    ensures Shaped(INTENDED_CONSTRUCTOR)
  {
    forall b, name, pivot, rot, leaf, visible
      ensures Constructs(b, name, leaf, INTENDED_CONSTRUCTOR(b, name, pivot, rot, leaf, visible))
    {
      assert INTENDED_CONSTRUCTOR(b, name, pivot, rot, leaf, visible) == NewPartIntended(b, name, pivot, rot, leaf, visible);
      NewPartIntendedDiffers(b, name, pivot, rot, leaf, visible);
    }
  }

  /**
   * `deserializeHelper`, with the constructor `mk` as a parameter: read
   * pivot and rotation, construct the part (a geometry leaf iff there is no
   * `children` key), then build and attach each child in list order.
   */
  function BuildWith(n: PartNbt, b: Builder, mk: Maker): (r: Built)
    requires Shaped(mk)
    decreases n
    ensures b.pending <= r.builder.pending && r.builder.texIndex >= b.texIndex
    ensures r.result.Ok? ==>
      var p := r.result.value;
      p.name == NameOf(n) && p.luaIndex == b.count
      && (p.hasVertexData <==> !n.hasChildren)
      && (p.hasVertexData ==> r.builder == Builder(b.texIndex + 1, b.pending + [p]))
  {
    var pivot := VectorOr(n.pivot);
    var rot := VectorOr(n.rotation);
    if pivot.Err? then Built(Err(pivot.error), b)
    else if rot.Err? then Built(Err(rot.error), b)
    else
      var (p, b1) := mk(b, NameOf(n), pivot.value, rot.value, !n.hasChildren, VisibleOf(n));
      if !n.hasChildren then Built(Ok(p), b1)
      else BuildChildrenWith(n.children, p, b1, mk)
  }

  /** The loop over the `children` list: build one child, attach it, go on. */
  function BuildChildrenWith(cs: seq<PartNbt>, parent: Part, b: Builder, mk: Maker): (r: Built)
    requires Shaped(mk) && !parent.hasVertexData
    decreases cs
    ensures b.pending <= r.builder.pending && r.builder.texIndex >= b.texIndex
    ensures r.result.Ok? ==>
      var p := r.result.value;
      SameNode(p.(first := parent.first, last := parent.last), parent)
      && |p.children| >= |parent.children| && p.children[..|parent.children|] == parent.children
  {
    if cs == [] then Built(Ok(parent), b)
    else
      var c := BuildWith(cs[0], b, mk);
      if c.result.Err? then c
      else BuildChildrenWith(cs[1..], AddChild(parent, c.result.value).value, c.builder, mk)
  }

  /**
   * `deserialize`, with the constructor `mk`: reject a non-compound root,
   * build the tree, then `resetBuildTree`. An exception escapes before the
   * reset, so the build state keeps whatever was constructed before it, and
   * the next reset hands those stale parts out ahead of the next tree's.
   */
  function DeserializeWith(root: Nbt, b: Builder, mk: Maker): (r: (Result<Tree>, Builder))
    requires Shaped(mk)
    ensures root.NotCompound? ==> r == (Err(IllegalArgument(NOT_COMPOUND)), b)
    ensures r.0.Ok? ==>
      (r.1 == FRESH && r.0.value.stale == b.pending
       && r.0.value.elements[..b.count] == b.pending && r.0.value.elements[b.count] == r.0.value.root)
    ensures r.0.Ok? ==> r.0.value.root.name == NameOf(root.part) && r.0.value.root.luaIndex == b.count
    ensures root.Compound? && r.0.Err? ==>
      var c := BuildWith(root.part, b, mk);
      c.result.Err? && r == (Err(c.result.error), c.builder)
  {
    if root.NotCompound? then (Err(IllegalArgument(NOT_COMPOUND)), b)
    else
      var c := BuildWith(root.part, b, mk);
      if c.result.Err? then (Err(c.result.error), c.builder)
      else
        var (t, b') := ResetBuildTree(c.result.value, b.pending);
        (Ok(t), b')
  }

  /** `deserialize` with the source's constructor. */
  function Deserialize(root: Nbt, b: Builder): (r: (Result<Tree>, Builder))
    ensures root.NotCompound? ==> r == (Err(IllegalArgument(NOT_COMPOUND)), b)
    ensures r.0.Ok? ==>
      (r.1 == FRESH && r.0.value.stale == b.pending
       && r.0.value.elements[..b.count] == b.pending && r.0.value.elements[b.count] == r.0.value.root)
  {
    ConstructorShaped();
    DeserializeWith(root, b, CONSTRUCTOR)
  }

  // ---------------------------------------------------------------------
  // Reading one part

  /** A part with no pivot, rotation or visibility key is read as zero, zero and visible. */
  lemma Defaults(n: PartNbt)
    requires n.pivot.None? && n.rotation.None? && n.visibility.None?
    ensures VectorOr(n.pivot) == Ok(ZERO3) && VectorOr(n.rotation) == Ok(ZERO3) && VisibleOf(n)
  {
  }

  /** Constructed from those defaults, a part starts at rest. */
  lemma DefaultsAtRest(b: Builder, name: string, leaf: bool)
    ensures var p := NewPart(b, name, ZERO3, ZERO3, leaf, true).0;
      p.pivot == ZERO3 && p.rotation == ZERO3 && p.transform == Mat4.IDENTITY
  {
    assert ZERO3.Scale(3.141592653589793 / 180.0) == ZERO3;
    MathUtils.WorldPartInverse(ZERO3);
  }

  /** A part fails to read iff a present pivot or rotation list has fewer than three floats. */
  lemma ReadFailure(n: PartNbt, b: Builder, mk: Maker)
    requires Shaped(mk)
    ensures BuildWith(n, b, mk).result.Err? && BuildWith(n, b, mk).builder == b
        <==> (n.pivot.Some? && |n.pivot.value| < 3) || (n.rotation.Some? && |n.rotation.value| < 3)
  {
  }

  // ---------------------------------------------------------------------
  // Pre-order numbering

  lemma FlattenAllSnoc(cs: seq<Part>, c: Part)
    ensures FlattenAll(cs + [c]) == FlattenAll(cs) + Flatten(c)
    decreases |cs|
  {
    if cs == [] {
      assert [] + [c] == [c];
    } else {
      assert (cs + [c])[0] == cs[0] && (cs + [c])[1..] == cs[1..] + [c];
      FlattenAllSnoc(cs[1..], c);
    }
  }

  lemma LeafIndicesAllSnoc(cs: seq<Part>, c: Part)
    ensures LeafIndicesAll(cs + [c]) == LeafIndicesAll(cs) + LeafIndices(c)
    decreases |cs|
  {
    if cs == [] {
      assert [] + [c] == [c];
    } else {
      assert (cs + [c])[0] == cs[0] && (cs + [c])[1..] == cs[1..] + [c];
      LeafIndicesAllSnoc(cs[1..], c);
    }
  }

  lemma RunAppend(lo: int, m: nat, n: nat)
    ensures Run(lo, m) + Run(lo + m, n) == Run(lo, m + n)
  {
    var a := Run(lo, m) + Run(lo + m, n);
    var b := Run(lo, m + n);
    forall i | 0 <= i < m + n
      ensures a[i] == b[i]
    {
      if i >= m {
        assert a[i] == Run(lo + m, n)[i - m];
      }
    }
  }

  /** The parts below a group are numbered on from the group's own Lua index. */
  predicate NumberedBelow(p: Part) {
    forall i :: 0 <= i < |FlattenAll(p.children)| ==> FlattenAll(p.children)[i].luaIndex == p.luaIndex + 1 + i
  }

  /**
   * Every part of a built subtree has Lua index = the build count before it
   * plus its pre-order position, and the subtree's parts are exactly the
   * elements the build added.
   */
  lemma {:induction false} BuildNumbers(n: PartNbt, b: Builder, mk: Maker)
    requires Shaped(mk)
    requires BuildWith(n, b, mk).result.Ok?
    ensures var p := BuildWith(n, b, mk).result.value;
      |Flatten(p)| == BuildWith(n, b, mk).builder.count - b.count
      && forall i :: 0 <= i < |Flatten(p)| ==> Flatten(p)[i].luaIndex == b.count + i
    decreases n
  {
    var p := BuildWith(n, b, mk).result.value;
    if n.hasChildren {
      var (p0, b1) := mk(b, NameOf(n), VectorOr(n.pivot).value, VectorOr(n.rotation).value, false, VisibleOf(n));
      BuildChildrenNumbers(n.children, p0, b1, mk);
      forall i | 0 <= i < |Flatten(p)|
        ensures Flatten(p)[i].luaIndex == b.count + i
      {
        if i > 0 {
          assert Flatten(p)[i] == FlattenAll(p.children)[i - 1];
        }
      }
    }
  }

  lemma {:induction false} BuildChildrenNumbers(cs: seq<PartNbt>, parent: Part, b: Builder, mk: Maker)
    requires Shaped(mk)
    requires !parent.hasVertexData && NumberedBelow(parent)
    requires parent.luaIndex + 1 + |FlattenAll(parent.children)| == b.count
    requires BuildChildrenWith(cs, parent, b, mk).result.Ok?
    ensures var p := BuildChildrenWith(cs, parent, b, mk).result.value;
      NumberedBelow(p) && parent.luaIndex + 1 + |FlattenAll(p.children)| == BuildChildrenWith(cs, parent, b, mk).builder.count
    decreases cs
  {
    if cs != [] {
      var c := BuildWith(cs[0], b, mk);
      var child := c.result.value;
      var next := AddChild(parent, child).value;
      BuildNumbers(cs[0], b, mk);
      FlattenAllSnoc(parent.children, child);
      var before := FlattenAll(parent.children);
      forall i | 0 <= i < |FlattenAll(next.children)|
        ensures FlattenAll(next.children)[i].luaIndex == next.luaIndex + 1 + i
      {
        if i >= |before| {
          assert FlattenAll(next.children)[i] == Flatten(child)[i - |before|];
        } else {
          assert FlattenAll(next.children)[i] == before[i];
        }
      }
      BuildChildrenNumbers(cs[1..], next, c.builder, mk);
    }
  }

  // ---------------------------------------------------------------------
  // Texture indices and ranges

  /** The geometry leaves of a built subtree take the next texture indices, in pre-order. */
  lemma {:induction false} BuildLeaves(n: PartNbt, b: Builder, mk: Maker)
    requires Shaped(mk)
    requires BuildWith(n, b, mk).result.Ok?
    ensures var r := BuildWith(n, b, mk);
      LeafIndices(r.result.value) == Run(b.texIndex, r.builder.texIndex - b.texIndex)
    decreases n
  {
    var r := BuildWith(n, b, mk);
    var p := r.result.value;
    if n.hasChildren {
      var (p0, b1) := mk(b, NameOf(n), VectorOr(n.pivot).value, VectorOr(n.rotation).value, false, VisibleOf(n));
      BuildChildrenLeaves(n.children, p0, b1, mk);
      assert LeafIndices(p) == [] + LeafIndicesAll(p.children);
      assert LeafIndicesAll(p0.children) == [];
    } else {
      assert LeafIndices(p) == [p.first] + [];
    }
  }

  /** The leaves of `children` are those of `before` followed by the indices `lo .. hi-1`. */
  predicate LeavesAfter(children: seq<Part>, before: seq<Part>, lo: int, hi: int) {
    lo <= hi && LeafIndicesAll(children) == LeafIndicesAll(before) + Run(lo, hi - lo)
  }

  lemma {:induction false} BuildChildrenLeaves(cs: seq<PartNbt>, parent: Part, b: Builder, mk: Maker)
    requires Shaped(mk)
    requires !parent.hasVertexData
    requires BuildChildrenWith(cs, parent, b, mk).result.Ok?
    ensures var r := BuildChildrenWith(cs, parent, b, mk);
      LeavesAfter(r.result.value.children, parent.children, b.texIndex, r.builder.texIndex)
    decreases cs
  {
    var r := BuildChildrenWith(cs, parent, b, mk);
    if cs == [] {
      assert Run(b.texIndex, 0) == [];
      assert LeafIndicesAll(parent.children) + [] == LeafIndicesAll(parent.children);
    } else {
      BuildChildrenCons(cs, parent, b, mk);
      var c := BuildWith(cs[0], b, mk);
      var next := AddChild(parent, c.result.value).value;
      BuildChildrenLeaves(cs[1..], next, c.builder, mk);
      BuildLeaves(cs[0], b, mk);
      LeavesStep(parent, c.result.value, next, b.texIndex, c.builder.texIndex, r.builder.texIndex,
                 r.result.value.children);
    }
  }

  /** Past the first child, the loop goes on from the parent with that child attached. */
  lemma BuildChildrenCons(cs: seq<PartNbt>, parent: Part, b: Builder, mk: Maker)
    requires Shaped(mk) && !parent.hasVertexData && cs != []
    requires BuildChildrenWith(cs, parent, b, mk).result.Ok?
    ensures var c := BuildWith(cs[0], b, mk);
      c.result.Ok? && AddChild(parent, c.result.value).Ok?
      && BuildChildrenWith(cs, parent, b, mk) == BuildChildrenWith(cs[1..], AddChild(parent, c.result.value).value, c.builder, mk)
  {
  }

  /**
   * One step of the children loop for the leaf numbering: if the new child
   * numbers the leaves `lo .. mid-1` and everything after it numbers
   * `mid .. hi-1`, the whole run from the old parent on is `lo .. hi-1`.
   */
  lemma LeavesStep(parent: Part, child: Part, next: Part, lo: int, mid: int, hi: int, all: seq<Part>)
    requires next.children == parent.children + [child]
    requires lo <= mid <= hi
    requires LeafIndices(child) == Run(lo, mid - lo)
    requires LeavesAfter(all, next.children, mid, hi)
    ensures LeavesAfter(all, parent.children, lo, hi)
  {
    LeafIndicesAllSnoc(parent.children, child);
    SeqGlue(LeafIndicesAll(all), LeafIndicesAll(next.children), LeafIndicesAll(parent.children), lo, mid - lo, hi - mid);
  }

  /** A run of `m` and then a run of `k` after `before` is one run of `m + k` after it. */
  lemma SeqGlue(all: seq<int>, mid: seq<int>, before: seq<int>, lo: int, m: nat, k: nat)
    requires all == mid + Run(lo + m, k) && mid == before + Run(lo, m)
    ensures all == before + Run(lo, m + k)
  {
    RunAppend(lo, m, k);
    assert (before + Run(lo, m)) + Run(lo + m, k) == before + (Run(lo, m) + Run(lo + m, k));
  }

  /** Every built subtree keeps the range invariant of `addChild`. */
  lemma {:induction false} BuildRanges(n: PartNbt, b: Builder, mk: Maker)
    requires Shaped(mk)
    requires BuildWith(n, b, mk).result.Ok?
    ensures RangesFolded(BuildWith(n, b, mk).result.value)
    decreases n
  {
    if n.hasChildren {
      var (p0, b1) := mk(b, NameOf(n), VectorOr(n.pivot).value, VectorOr(n.rotation).value, false, VisibleOf(n));
      BuildChildrenRanges(n.children, p0, b1, mk);
    }
  }

  lemma {:induction false} BuildChildrenRanges(cs: seq<PartNbt>, parent: Part, b: Builder, mk: Maker)
    requires Shaped(mk)
    requires !parent.hasVertexData && RangesFolded(parent)
    requires BuildChildrenWith(cs, parent, b, mk).result.Ok?
    ensures RangesFolded(BuildChildrenWith(cs, parent, b, mk).result.value)
    decreases cs
  {
    if cs != [] {
      var c := BuildWith(cs[0], b, mk);
      var child := c.result.value;
      BuildRanges(cs[0], b, mk);
      AddChildAtRoot(parent, child);
      AddChildAtKeepsRanges(parent, [], child);
      BuildChildrenRanges(cs[1..], AddChild(parent, child).value, c.builder, mk);
    }
  }

  /** The only span of a consecutive run is its first and last element. */
  lemma RunSpan(lo: int, k: nat, p: Part)
    requires k > 0 && LeafIndices(p) == Run(lo, k) && SpansLeaves(p)
    ensures p.first == lo && p.last == lo + k - 1
  {
    var ls := Run(lo, k);
    assert ls[0] == lo && ls[k - 1] == lo + k - 1;
    assert ls[0] in ls && ls[k - 1] in ls;
    var i :| 0 <= i < k && ls[i] == p.first;
    var j :| 0 <= j < k && ls[j] == p.last;
  }

  /**
   * Each part's leaves form one consecutive run from its `first` to its
   * `last`; a part with no leaf below keeps an empty range.
   */
  predicate LeafRun(p: Part) {
    (LeafIndices(p) == [] ==> p.first > p.last)
    && (LeafIndices(p) != [] ==> p.first <= p.last && LeafIndices(p) == Run(p.first, p.last - p.first + 1))
    && forall i :: 0 <= i < |p.children| ==> LeafRun(p.children[i])
  }

  /**
   * As long as no leaf index reaches the empty range's bound 999999 + 1,
   * every part of a built subtree spans exactly its consecutive leaves.
   */
  lemma {:induction false} BuildLeafRun(n: PartNbt, b: Builder, mk: Maker)
    requires Shaped(mk)
    requires BuildWith(n, b, mk).result.Ok?
    requires 0 <= b.texIndex && BuildWith(n, b, mk).builder.texIndex <= GROUP_FIRST + 1
    ensures LeafRun(BuildWith(n, b, mk).result.value)
    decreases n
  {
    var r := BuildWith(n, b, mk);
    var p := r.result.value;
    var k := r.builder.texIndex - b.texIndex;
    BuildLeaves(n, b, mk);
    BuildRanges(n, b, mk);
    OwnRun(p, b.texIndex, k);
    if n.hasChildren {
      var (p0, b1) := mk(b, NameOf(n), VectorOr(n.pivot).value, VectorOr(n.rotation).value, false, VisibleOf(n));
      BuildChildrenLeafRun(n.children, p0, b1, mk, r.builder.texIndex);
    }
  }

  /** The node step of `BuildLeafRun`. */
  lemma OwnRun(p: Part, lo: int, k: nat)
    requires RangesFolded(p) && LeafIndices(p) == Run(lo, k) && 0 <= lo && lo + k <= GROUP_FIRST + 1
    ensures LeafIndices(p) == [] ==> p.first > p.last
    ensures LeafIndices(p) != [] ==> p.first <= p.last && LeafIndices(p) == Run(p.first, p.last - p.first + 1)
  {
    RangeIsLeafSpan(p);
    if k > 0 {
      RunSpan(lo, k, p);
    }
  }

  lemma {:induction false} BuildChildrenLeafRun(cs: seq<PartNbt>, parent: Part, b: Builder, mk: Maker, top: int)
    requires Shaped(mk)
    requires !parent.hasVertexData && forall i :: 0 <= i < |parent.children| ==> LeafRun(parent.children[i])
    requires BuildChildrenWith(cs, parent, b, mk).result.Ok?
    requires 0 <= b.texIndex && BuildChildrenWith(cs, parent, b, mk).builder.texIndex <= top <= GROUP_FIRST + 1
    ensures var p := BuildChildrenWith(cs, parent, b, mk).result.value;
      forall i :: 0 <= i < |p.children| ==> LeafRun(p.children[i])
    decreases cs
  {
    if cs != [] {
      var c := BuildWith(cs[0], b, mk);
      var child := c.result.value;
      var next := AddChild(parent, child).value;
      BuildLeafRun(cs[0], b, mk);
      forall i | 0 <= i < |next.children|
        ensures LeafRun(next.children[i])
      {
        if i == |parent.children| {
          assert next.children[i] == child;
        } else {
          assert next.children[i] == parent.children[i];
        }
      }
      BuildChildrenLeafRun(cs[1..], next, c.builder, mk, top);
    }
  }

  // ---------------------------------------------------------------------
  // The whole tree

  /**
   * After a successful `deserialize` from a reset build state, the element
   * array holds every part at its Lua index, the leaves hold texture indices
   * 0..k-1 in pre-order, the root's last index + 1 is the leaf count, and
   * the next build starts at index 0 again.
   */
  lemma DeserializedTree(root: Nbt, mk: Maker)
    requires Shaped(mk)
    requires DeserializeWith(root, FRESH, mk).0.Ok?
    ensures var (res, b) := DeserializeWith(root, FRESH, mk);
      var t := res.value;
      var k := |LeafIndices(t.root)|;
      b == FRESH
      && (forall i :: 0 <= i < |t.elements| ==> t.elements[i].luaIndex == i)
      && LeafIndices(t.root) == Run(0, k)
      && RangesFolded(t.root)
      && (k <= GROUP_FIRST + 1 ==> LeafRun(t.root))
      && (0 < k <= GROUP_FIRST + 1 ==> LastTexIndex(t) + 1 == k && t.root.first == 0)
  {
    var n := root.part;
    var t := DeserializeWith(root, FRESH, mk).0.value;
    assert t.root == BuildWith(n, FRESH, mk).result.value;
    BuildNumbers(n, FRESH, mk);
    BuildLeaves(n, FRESH, mk);
    BuildRanges(n, FRESH, mk);
    var k := |LeafIndices(t.root)|;
    if k <= GROUP_FIRST + 1 {
      BuildLeafRun(n, FRESH, mk);
      if k > 0 {
        RangeIsLeafSpan(t.root);
        RunSpan(0, k, t.root);
      }
    }
  }

  /**
   * The source's constructor raises the texture flag of every part it
   * makes, and attaching children leaves it raised: a deserialized root
   * starts dirty.
   */
  lemma DeserializedRootDirty(root: Nbt, b: Builder)
    requires Deserialize(root, b).0.Ok?
    ensures Deserialize(root, b).0.value.root.needsTextureUpdate
  {
    ConstructorShaped();
    assert Deserialize(root, b) == DeserializeWith(root, b, CONSTRUCTOR);
    var n := root.part;
    var pivot, rot := VectorOr(n.pivot).value, VectorOr(n.rotation).value;
    var (p, b1) := CONSTRUCTOR(b, NameOf(n), pivot, rot, !n.hasChildren, VisibleOf(n));
    assert (p, b1) == NewPart(b, NameOf(n), pivot, rot, !n.hasChildren, VisibleOf(n));
    assert BuildWith(n, b, CONSTRUCTOR).result.value.needsTextureUpdate == p.needsTextureUpdate;
  }

  /** A group holding only groups has no leaf, so its range stays empty. */
  lemma EmptyGroup(b: Builder, mk: Maker)
    requires Shaped(mk)
    ensures var n := PartNbt(None, None, None, None, true, [PartNbt(None, None, None, None, true, [])]);
      var r := BuildWith(n, b, mk);
      r.result.Ok? && r.result.value.first == GROUP_FIRST && r.result.value.last == GROUP_LAST
      && |r.result.value.children| == 1 && r.builder.texIndex == b.texIndex && r.builder.count == b.count + 2
  {
  }

  /**
   * A failure below the root escapes before `resetBuildTree`: the root
   * group constructed so far stays in the element list, so the next build
   * does not start at 0.
   */
  lemma StaleStateAfterFailure(mk: Maker)
    requires Shaped(mk)
    ensures var bad := PartNbt(None, Some([]), None, None, false, []);
      var root := Compound(PartNbt(None, None, None, None, true, [bad]));
      DeserializeWith(root, FRESH, mk) == (Err(IndexOutOfBounds), Builder(0, [mk(FRESH, "", ZERO3, ZERO3, false, true).0]))
  {
    var bad := PartNbt(None, Some([]), None, None, false, []);
    var n := PartNbt(None, None, None, None, true, [bad]);
    var (p, b1) := mk(FRESH, "", ZERO3, ZERO3, false, true);
    assert Constructs(FRESH, "", false, (p, b1));
    assert b1 == Builder(0, [p]);
    assert BuildWith(bad, b1, mk) == Built(Err(IndexOutOfBounds), b1);
    assert BuildWith(n, FRESH, mk) == BuildChildrenWith([bad], p, b1, mk);
  }

  /** The same with the source's constructor. */
  lemma StaleStateAfterDeserialize()
    ensures var bad := PartNbt(None, Some([]), None, None, false, []);
      var root := Compound(PartNbt(None, None, None, None, true, [bad]));
      var stale := NewPart(FRESH, "", ZERO3, ZERO3, false, true).0;
      Deserialize(root, FRESH) == (Err(IndexOutOfBounds), Builder(0, [stale])) && stale.luaIndex == 0
  {
    ConstructorShaped();
    StaleStateAfterFailure(CONSTRUCTOR);
  }

  /**
   * After a successful `deserialize` from any build state, each part of the
   * tree sits in the element array at its own Lua index, behind the stale
   * parts an earlier failed build left.
   */
  lemma TreeAtOwnIndices(root: Nbt, b: Builder, mk: Maker)
    requires Shaped(mk)
    requires DeserializeWith(root, b, mk).0.Ok?
    ensures var t := DeserializeWith(root, b, mk).0.value;
      |t.elements| == b.count + |Flatten(t.root)|
      && forall i :: 0 <= i < |Flatten(t.root)| ==>
        Flatten(t.root)[i].luaIndex == b.count + i && t.elements[b.count + i] == Flatten(t.root)[i]
  {
    var t := DeserializeWith(root, b, mk).0.value;
    assert t.root == BuildWith(root.part, b, mk).result.value;
    BuildNumbers(root.part, b, mk);
  }
}
