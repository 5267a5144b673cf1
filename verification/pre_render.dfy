/**
 * `recursiveSetupPreRender`: the per-frame walk over the part tree that
 * recomputes stale TRS matrices, accumulates world matrices, and uploads the
 * matrices of every dirty subtree with one `uploadData` call per collector.
 * The shared float buffer is modelled as the floats a call appends to it.
 */
module PreRender {
  import opened Mat4
  import opened ModelPart
  import Vectors

  /** One `uploadData(first, last, buf)` call and the floats in `buf`. */
  datatype Upload = Upload(first: int, last: int, data: seq<real>)

  /** The part after the pass, the floats it appended to its caller's buffer, and its uploads. */
  datatype PassResult = PassResult(part: Part, written: seq<real>, uploads: seq<Upload>)
  datatype ChildrenResult = ChildrenResult(parts: seq<Part>, written: seq<real>, uploads: seq<Upload>)

  /** The first step of `recursiveSetupPreRender`: a pending TRS update is applied and its flag cleared. */
  function Refresh(p: Part, env: Env): (q: Part)
    ensures !q.needsTransformUpdate && q.children == p.children
    ensures q.(transform := p.transform, needsTransformUpdate := p.needsTransformUpdate) == p
    ensures q.transform == if p.needsTransformUpdate then Trs(p, env) else p.transform
  {
    if p.needsTransformUpdate then p.(transform := Trs(p, env), needsTransformUpdate := false) else p
  }

  /** A collector gathers its subtree into a fresh buffer and uploads it. */
  predicate IsCollector(p: Part, parentDirty: bool) {
    p.needsTextureUpdate && !parentDirty && p.first <= p.last
  }

  /** The same tree apart from matrices and flags. */
  predicate SameShape(a: Part, b: Part) {
    a.name == b.name && a.luaIndex == b.luaIndex && a.first == b.first && a.last == b.last
    && a.hasVertexData == b.hasVertexData && a.pivot == b.pivot && a.rotation == b.rotation
    && a.translation == b.translation && a.scale == b.scale
    && |a.children| == |b.children|
    && forall i :: 0 <= i < |a.children| ==> SameShape(a.children[i], b.children[i])
  }

  /** No flag is set anywhere in the subtree. */
  predicate Settled(p: Part) {
    !p.needsTextureUpdate && !p.needsTransformUpdate
    && forall i :: 0 <= i < |p.children| ==> Settled(p.children[i])
  }

  /** No texture flag is set anywhere in the subtree. */
  predicate TextureClean(p: Part) {
    !p.needsTextureUpdate && forall i :: 0 <= i < |p.children| ==> TextureClean(p.children[i])
  }

  /**
   * One call `p.recursiveSetupPreRender(parent, parentDirty, tex, buf)`;
   * `buffering` says whether `buf` is non-null.
   */
  function Pass(p: Part, parent: Matrix4, parentDirty: bool, buffering: bool, env: Env): (r: PassResult)
    decreases p
    ensures SameShape(r.part, p) && Settled(r.part)
  {
    var q := Refresh(p, env);
    var world := q.transform.Multiply(parent);
    var collector := IsCollector(q, parentDirty);
    var own := if q.hasVertexData && (collector || buffering) then UploadToBuffer(world, env.toFloat) else [];
    var kids := PassChildren(p.children, world, q.needsTextureUpdate || parentDirty, collector || buffering, env);
    var data := own + kids.written;
    PassResult(q.(children := kids.parts, needsTextureUpdate := false),
               if collector then [] else data,
               kids.uploads + (if collector then [Upload(q.first, q.last, data)] else []))
  }

  /** The loop over the children, in list order. */
  function PassChildren(cs: seq<Part>, parent: Matrix4, parentDirty: bool, buffering: bool, env: Env): (r: ChildrenResult)
    decreases cs
    ensures |r.parts| == |cs|
    ensures forall i :: 0 <= i < |cs| ==> SameShape(r.parts[i], cs[i]) && Settled(r.parts[i])
  {
    if cs == [] then ChildrenResult([], [], [])
    else
      var h := Pass(cs[0], parent, parentDirty, buffering, env);
      var t := PassChildren(cs[1..], parent, parentDirty, buffering, env);
      ChildrenResult([h.part] + t.parts, h.written + t.written, h.uploads + t.uploads)
  }

  /** The world matrices of the geometry leaves of a subtree, in pre-order. */
  function LeafWorlds(p: Part, parent: Matrix4, env: Env): seq<Matrix4>
    decreases p
  {
    var world := Refresh(p, env).transform.Multiply(parent);
    (if p.hasVertexData then [world] else []) + LeafWorldsAll(p.children, world, env)
  }

  function LeafWorldsAll(cs: seq<Part>, parent: Matrix4, env: Env): seq<Matrix4>
    decreases cs
  {
    if cs == [] then [] else LeafWorlds(cs[0], parent, env) + LeafWorldsAll(cs[1..], parent, env)
  }

  /** Blocks of floats laid out one after another. */
  function Concat(bs: seq<seq<real>>): seq<real> {
    if bs == [] then [] else bs[0] + Concat(bs[1..])
  }

  lemma {:induction false} ConcatAppend(a: seq<seq<real>>, b: seq<seq<real>>)
    ensures Concat(a + b) == Concat(a) + Concat(b)
    decreases |a|
  {
    if a == [] {
      assert a + b == b;
    } else {
      assert (a + b)[0] == a[0] && (a + b)[1..] == a[1..] + b;
      ConcatAppend(a[1..], b);
    }
  }

  /** Matrices written one after another with `uploadToBuffer`. */
  function Floats(ms: seq<Matrix4>, toFloat: real -> real): seq<real> {
    Concat(seq(|ms|, i requires 0 <= i < |ms| => UploadToBuffer(ms[i], toFloat)))
  }

  lemma {:induction false} ConcatLength(bs: seq<seq<real>>, k: nat)
    requires forall i :: 0 <= i < |bs| ==> |bs[i]| == k
    ensures |Concat(bs)| == k * |bs|
    decreases |bs|
  {
    if bs != [] {
      ConcatLength(bs[1..], k);
    }
  }

  /** Each matrix takes sixteen floats. */
  lemma FloatsLength(ms: seq<Matrix4>, toFloat: real -> real)
    ensures |Floats(ms, toFloat)| == 16 * |ms|
  {
    ConcatLength(seq(|ms|, i requires 0 <= i < |ms| => UploadToBuffer(ms[i], toFloat)), 16);
  }

  lemma FloatsSingle(m: Matrix4, toFloat: real -> real)
    ensures Floats([m], toFloat) == UploadToBuffer(m, toFloat)
  {
    var bs := seq(1, i requires 0 <= i < 1 => UploadToBuffer([m][i], toFloat));
    var u := UploadToBuffer(m, toFloat);
    assert bs == [u];
    assert bs[1..] == [];
    assert Concat(bs) == u + Concat([]);
    assert u + [] == u;
  }

  lemma FloatsAppend(a: seq<Matrix4>, b: seq<Matrix4>, toFloat: real -> real)
    ensures Floats(a + b, toFloat) == Floats(a, toFloat) + Floats(b, toFloat)
  {
    var f := i requires 0 <= i < |a + b| => UploadToBuffer((a + b)[i], toFloat);
    var A := seq(|a|, i requires 0 <= i < |a| => UploadToBuffer(a[i], toFloat));
    var B := seq(|b|, i requires 0 <= i < |b| => UploadToBuffer(b[i], toFloat));
    assert seq(|a + b|, f) == A + B;
    ConcatAppend(A, B);
  }

  /** A node's floats are its own matrix, if it is a leaf, then its children's. */
  lemma OwnThenChildren(p: Part, world: Matrix4, env: Env)
    ensures (if p.hasVertexData then UploadToBuffer(world, env.toFloat) else [])
              + Floats(LeafWorldsAll(p.children, world, env), env.toFloat)
         == Floats((if p.hasVertexData then [world] else []) + LeafWorldsAll(p.children, world, env), env.toFloat)
  {
    var rest := LeafWorldsAll(p.children, world, env);
    if p.hasVertexData {
      FloatsAppend([world], rest, env.toFloat);
      FloatsSingle(world, env.toFloat);
    } else {
      assert [] + rest == rest;
    }
  }

  /** Every leaf contributes one world matrix. */
  lemma {:induction false} LeafWorldsCount(p: Part, parent: Matrix4, env: Env)
    ensures |LeafWorlds(p, parent, env)| == |LeafIndices(p)|
    decreases p
  {
    LeafWorldsAllCount(p.children, Refresh(p, env).transform.Multiply(parent), env);
  }

  lemma {:induction false} LeafWorldsAllCount(cs: seq<Part>, parent: Matrix4, env: Env)
    ensures |LeafWorldsAll(cs, parent, env)| == |LeafIndicesAll(cs)|
    decreases cs
  {
    if cs != [] {
      LeafWorldsCount(cs[0], parent, env);
      LeafWorldsAllCount(cs[1..], parent, env);
    }
  }

  /**
   * Below a node whose flag was set, nothing uploads; with a buffer, every
   * leaf appends its world matrix in pre-order, and without one nothing is written.
   */
  lemma {:induction false} DirtyPass(p: Part, parent: Matrix4, buffering: bool, env: Env)
    ensures Pass(p, parent, true, buffering, env).uploads == []
    ensures Pass(p, parent, true, buffering, env).written
         == if buffering then Floats(LeafWorlds(p, parent, env), env.toFloat) else []
    decreases p
  {
    var q := Refresh(p, env);
    var world := q.transform.Multiply(parent);
    DirtyPassAll(p.children, world, buffering, env);
    OwnThenChildren(p, world, env);
  }

  lemma {:induction false} DirtyPassAll(cs: seq<Part>, parent: Matrix4, buffering: bool, env: Env)
    ensures PassChildren(cs, parent, true, buffering, env).uploads == []
    ensures PassChildren(cs, parent, true, buffering, env).written
         == if buffering then Floats(LeafWorldsAll(cs, parent, env), env.toFloat) else []
    decreases cs
  {
    if cs != [] {
      DirtyPass(cs[0], parent, buffering, env);
      DirtyPassAll(cs[1..], parent, buffering, env);
      FloatsAppend(LeafWorlds(cs[0], parent, env), LeafWorldsAll(cs[1..], parent, env), env.toFloat);
    }
  }

  /**
   * A collector appends nothing to its caller's buffer and issues exactly
   * one upload of its range, holding its leaves' world matrices in pre-order.
   */
  lemma CollectorPass(p: Part, parent: Matrix4, parentDirty: bool, buffering: bool, env: Env)
    requires IsCollector(p, parentDirty)
    ensures var r := Pass(p, parent, parentDirty, buffering, env);
      r.written == []
      && r.uploads == [Upload(p.first, p.last, Floats(LeafWorlds(p, parent, env), env.toFloat))]
      && |r.uploads[0].data| == 16 * |LeafIndices(p)|
  {
    var q := Refresh(p, env);
    var world := q.transform.Multiply(parent);
    DirtyPassAll(p.children, world, true, env);
    OwnThenChildren(p, world, env);
    LeafWorldsCount(p, parent, env);
    FloatsLength(LeafWorlds(p, parent, env), env.toFloat);
  }

  /** The ranges of the collectors of a subtree, in the order their uploads are issued. */
  function Collectors(p: Part, parentDirty: bool): seq<(int, int)>
    decreases p
  {
    if IsCollector(p, parentDirty) then [(p.first, p.last)]
    else CollectorsAll(p.children, p.needsTextureUpdate || parentDirty)
  }

  function CollectorsAll(cs: seq<Part>, parentDirty: bool): seq<(int, int)>
    decreases cs
  {
    if cs == [] then [] else Collectors(cs[0], parentDirty) + CollectorsAll(cs[1..], parentDirty)
  }

  function Ranges(us: seq<Upload>): (r: seq<(int, int)>)
    ensures |r| == |us|
    ensures forall i :: 0 <= i < |us| ==> r[i] == (us[i].first, us[i].last)
  {
    if us == [] then [] else [(us[0].first, us[0].last)] + Ranges(us[1..])
  }

  lemma RangesAppend(a: seq<Upload>, b: seq<Upload>)
    ensures Ranges(a + b) == Ranges(a) + Ranges(b)
  {
  }

  /** The pass makes exactly one upload per collector, in pre-order. */
  lemma {:induction false} UploadsAreCollectors(p: Part, parent: Matrix4, parentDirty: bool, buffering: bool, env: Env)
    ensures Ranges(Pass(p, parent, parentDirty, buffering, env).uploads) == Collectors(p, parentDirty)
    decreases p
  {
    if IsCollector(p, parentDirty) {
      CollectorPass(p, parent, parentDirty, buffering, env);
    } else {
      var q := Refresh(p, env);
      var world := q.transform.Multiply(parent);
      UploadsAreCollectorsAll(p.children, world, p.needsTextureUpdate || parentDirty, buffering, env);
      var kids := PassChildren(p.children, world, p.needsTextureUpdate || parentDirty, buffering, env);
      assert Pass(p, parent, parentDirty, buffering, env).uploads == kids.uploads + [];
    }
  }

  lemma {:induction false} UploadsAreCollectorsAll(cs: seq<Part>, parent: Matrix4, parentDirty: bool, buffering: bool, env: Env)
    ensures Ranges(PassChildren(cs, parent, parentDirty, buffering, env).uploads) == CollectorsAll(cs, parentDirty)
    decreases cs
  {
    if cs != [] {
      UploadsAreCollectors(cs[0], parent, parentDirty, buffering, env);
      UploadsAreCollectorsAll(cs[1..], parent, parentDirty, buffering, env);
      RangesAppend(Pass(cs[0], parent, parentDirty, buffering, env).uploads,
                   PassChildren(cs[1..], parent, parentDirty, buffering, env).uploads);
    }
  }

  /** With no texture flag set anywhere, a top-level pass writes and uploads nothing. */
  lemma {:induction false} IdlePass(p: Part, parent: Matrix4, env: Env)
    requires TextureClean(p)
    ensures Pass(p, parent, false, false, env).uploads == []
    ensures Pass(p, parent, false, false, env).written == []
    decreases p
  {
    var world := Refresh(p, env).transform.Multiply(parent);
    IdlePassAll(p.children, world, env);
  }

  lemma {:induction false} IdlePassAll(cs: seq<Part>, parent: Matrix4, env: Env)
    requires forall i :: 0 <= i < |cs| ==> TextureClean(cs[i])
    ensures PassChildren(cs, parent, false, false, env).uploads == []
    ensures PassChildren(cs, parent, false, false, env).written == []
    decreases cs
  {
    if cs != [] {
      IdlePass(cs[0], parent, env);
      IdlePassAll(cs[1..], parent, env);
    }
  }

  lemma {:induction false} SettledIsTextureClean(p: Part)
    requires Settled(p)
    ensures TextureClean(p)
    decreases p
  {
    forall i | 0 <= i < |p.children|
      ensures TextureClean(p.children[i])
    {
      SettledIsTextureClean(p.children[i]);
    }
  }

  /** A second pass with no setter in between uploads nothing. */
  lemma SecondPassIdle(p: Part, parent: Matrix4, parent': Matrix4, env: Env)
    ensures Pass(Pass(p, parent, false, false, env).part, parent', false, false, env).uploads == []
  {
    SettledIsTextureClean(Pass(p, parent, false, false, env).part);
    IdlePass(Pass(p, parent, false, false, env).part, parent', env);
  }

  /**
   * Entry by entry, `g` holds the parts of `f` with any pending TRS update
   * applied, and their rotations and Lua indices kept.
   */
  predicate Refreshes(g: seq<Part>, f: seq<Part>, env: Env) {
    |g| == |f| && forall i :: 0 <= i < |f| ==>
      g[i].transform == Refresh(f[i], env).transform && g[i].rotation == f[i].rotation
      && g[i].luaIndex == f[i].luaIndex
  }

  /**
   * The pass rebuilds the matrix of every part of the tree, each at its own
   * pre-order position, from the values its setters left: what a setter
   * changed between two frames is what the next frame draws.
   */
  lemma {:induction false} PassRefreshes(p: Part, parent: Matrix4, parentDirty: bool, buffering: bool, env: Env)
    ensures Refreshes(Flatten(Pass(p, parent, parentDirty, buffering, env).part), Flatten(p), env)
    decreases p, 1
  {
    var r := Pass(p, parent, parentDirty, buffering, env);
    var q := Refresh(p, env);
    var world := q.transform.Multiply(parent);
    var collector := IsCollector(q, parentDirty);
    var kids := PassChildren(p.children, world, q.needsTextureUpdate || parentDirty, collector || buffering, env);
    PassChildrenRefreshes(p.children, world, q.needsTextureUpdate || parentDirty, collector || buffering, env);
    assert r.part.children == kids.parts;
    RefreshesJoin([r.part], [p], FlattenAll(kids.parts), FlattenAll(p.children), env);
  }

  lemma {:induction false} PassChildrenRefreshes(cs: seq<Part>, parent: Matrix4, parentDirty: bool, buffering: bool, env: Env)
    ensures Refreshes(FlattenAll(PassChildren(cs, parent, parentDirty, buffering, env).parts), FlattenAll(cs), env)
    decreases cs, 0
  {
    if cs != [] {
      var ps := PassChildren(cs, parent, parentDirty, buffering, env).parts;
      var h := Pass(cs[0], parent, parentDirty, buffering, env);
      var t := PassChildren(cs[1..], parent, parentDirty, buffering, env);
      assert ps[0] == h.part && ps[1..] == t.parts;
      PassRefreshes(cs[0], parent, parentDirty, buffering, env);
      PassChildrenRefreshes(cs[1..], parent, parentDirty, buffering, env);
      RefreshesJoin(Flatten(h.part), Flatten(cs[0]), FlattenAll(t.parts), FlattenAll(cs[1..]), env);
    }
  }

  lemma RefreshesJoin(g1: seq<Part>, f1: seq<Part>, g2: seq<Part>, f2: seq<Part>, env: Env)
    requires Refreshes(g1, f1, env) && Refreshes(g2, f2, env)
    ensures Refreshes(g1 + g2, f1 + f2, env)
  {
    forall i | |f1| <= i < |f1 + f2|
      ensures (g1 + g2)[i] == g2[i - |f1|] && (f1 + f2)[i] == f2[i - |f1|]
    {
    }
  }

  /** The world matrix of a node is its refreshed transform applied after its parent's world. */
  lemma WorldIsParentThenLocal(p: Part, parent: Matrix4, env: Env)
    requires p.hasVertexData
    ensures LeafWorlds(p, parent, env)[0] == Product(parent, Refresh(p, env).transform)
  {
    MultiplyIsReversedProduct(Refresh(p, env).transform, parent);
  }

  /**
   * As written, an invisible part does not stay hidden: its first pass finds
   * a transform update pending and replaces the zero-scale matrix with the
   * TRS matrix, which for the reset rotation, translation and scale is the
   * identity. With the intended `setTransform` the hidden matrix survives.
   */
  lemma InvisiblePartReappears(b: Builder, name: string, pivot: Vectors.Vector3, rot: Vectors.Vector3, hasVertexData: bool, env: Env)
    requires env.sin(0.0) == 0.0 && env.cos(0.0) == 1.0
    ensures Refresh(NewPart(b, name, pivot, rot, hasVertexData, false).0, env).transform == IDENTITY
    ensures IDENTITY != HIDDEN
    ensures Refresh(NewPartIntended(b, name, pivot, rot, hasVertexData, false).0, env).transform == HIDDEN
  {
    TrsAtRest(NewPart(b, name, pivot, rot, hasVertexData, false).0, env);
    assert HIDDEN.At(1, 1) == 0.0;
  }
}
