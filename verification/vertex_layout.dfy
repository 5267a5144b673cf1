/**
 * `VertexLayout`: an attribute list built by chained `attribute` calls,
 * four integers per attribute (count, GL type, normalized, integer), and the
 * attribute-pointer setup it drives. GL calls are modelled as the list of
 * calls issued.
 */
module VertexLayout {
  import opened Wrappers

  const GL_BYTE := 0x1400
  const GL_UNSIGNED_BYTE := 0x1401
  const GL_SHORT := 0x1402
  const GL_UNSIGNED_SHORT := 0x1403
  const GL_INT := 0x1404
  const GL_UNSIGNED_INT := 0x1405
  const GL_FLOAT := 0x1406

  /** `typesToBytes`; an unlisted type has no entry. */
  function TypeBytes(glType: int): (r: Option<int>)
    ensures r.Some? <==> glType in {GL_BYTE, GL_UNSIGNED_BYTE, GL_SHORT, GL_UNSIGNED_SHORT, GL_INT, GL_UNSIGNED_INT, GL_FLOAT}
    ensures glType in {GL_BYTE, GL_UNSIGNED_BYTE} ==> r == Some(1)
    ensures glType in {GL_SHORT, GL_UNSIGNED_SHORT} ==> r == Some(2)
    ensures glType in {GL_INT, GL_UNSIGNED_INT, GL_FLOAT} ==> r == Some(4)
  {
    if glType == GL_BYTE || glType == GL_UNSIGNED_BYTE then Some(1)
    else if glType == GL_SHORT || glType == GL_UNSIGNED_SHORT then Some(2)
    else if glType == GL_FLOAT || glType == GL_INT || glType == GL_UNSIGNED_INT then Some(4)
    else None
  }

  predicate Supported(glType: int) {
    TypeBytes(glType).Some?
  }

  /** The layout's fields. */
  datatype Layout = Layout(data: seq<int>, bytesPerVertex: int, attributeCount: int)

  const EMPTY := Layout([], 0, 0)

  /** The bytes of the first `k` attributes recorded in `data`. */
  function Width(data: seq<int>, k: nat): int
    requires 4 * k <= |data|
    requires forall i :: 0 <= i < k ==> Supported(data[4 * i + 1])
  {
    if k == 0 then 0
    else
      var glType := data[4 * (k - 1) + 1];
      assert Supported(glType);
      Width(data, k - 1) + data[4 * (k - 1)] * TypeBytes(glType).value
  }

  /** One more attribute adds its count times its type's size. */
  lemma WidthStep(data: seq<int>, k: nat)
    requires 4 * (k + 1) <= |data|
    requires forall i :: 0 <= i < k + 1 ==> Supported(data[4 * i + 1])
    ensures Width(data, k + 1) == Width(data, k) + TypeBytes(data[4 * k + 1]).value * data[4 * k]
  {
  }

  /** The `VertexLayout` constructor and `attribute`: four entries per attribute, and the byte count is their total width. */
  predicate Valid(l: Layout) {
    l.attributeCount >= 0 && |l.data| == 4 * l.attributeCount
    && (forall i :: 0 <= i < l.attributeCount ==> Supported(l.data[4 * i + 1]))
    && l.bytesPerVertex == Width(l.data, l.attributeCount)
  }

  /**
   * `attribute`. An unsupported type unboxes a missing map entry and
   * throws after the four entries are appended, so the receiver keeps
   * them with its count and byte size unchanged. Only the exception is
   * modelled: the one caller, `defaultVertexLayout`, drops the layout.
   */
  function Attribute(l: Layout, glType: int, count: int, normalized: bool, integer: bool): (r: Result<Layout>)
    ensures r.Err? <==> !Supported(glType)
    ensures r.Err? ==> r.error == NullPointer
    ensures r.Ok? ==> (r.value.data == l.data + [count, glType, if normalized then 1 else 0, if integer then 1 else 0]
      && r.value.attributeCount == l.attributeCount + 1
      && r.value.bytesPerVertex == l.bytesPerVertex + count * TypeBytes(glType).value)
  {
    var data := l.data + [count, glType, if normalized then 1 else 0, if integer then 1 else 0];
    match TypeBytes(glType)
    case None => Err(NullPointer)
    case Some(size) => Ok(Layout(data, l.bytesPerVertex + count * size, l.attributeCount + 1))
  }

  /** Appending to the data leaves the width of the earlier attributes alone. */
  lemma {:induction false} WidthPrefix(data: seq<int>, more: seq<int>, k: nat)
    requires 4 * k <= |data|
    requires forall i :: 0 <= i < k ==> Supported(data[4 * i + 1])
    ensures forall i :: 0 <= i < k ==> Supported((data + more)[4 * i + 1])
    ensures Width(data + more, k) == Width(data, k)
  {
    forall i | 0 <= i < k ensures Supported((data + more)[4 * i + 1]) {
      assert (data + more)[4 * i + 1] == data[4 * i + 1];
    }
    if k > 0 {
      WidthPrefix(data, more, k - 1);
      assert (data + more)[4 * (k - 1)] == data[4 * (k - 1)];
      assert (data + more)[4 * (k - 1) + 1] == data[4 * (k - 1) + 1];
    }
  }

  /** `attribute` keeps the layout invariant. */
  lemma AttributeKeepsValid(l: Layout, glType: int, count: int, normalized: bool, integer: bool)
    requires Valid(l)
    ensures var r := Attribute(l, glType, count, normalized, integer); r.Ok? ==> Valid(r.value)
  {
    var r := Attribute(l, glType, count, normalized, integer);
    if r.Ok? {
      var more := [count, glType, if normalized then 1 else 0, if integer then 1 else 0];
      WidthPrefix(l.data, more, l.attributeCount);
      var d := r.value.data;
      assert d[4 * l.attributeCount] == count && d[4 * l.attributeCount + 1] == glType;
    }
  }

  /** One GL call of `setupAttribPointers`. */
  datatype GlCall =
    | AttribPointer(location: int, count: int, glType: int, normalized: bool, stride: int, offset: int)
    | AttribIPointer(location: int, count: int, glType: int, stride: int, offset: int)
    | Enable(location: int)

  /** The pointer call the source issues for attribute `k` at `offset`. */
  function PointerCall(l: Layout, k: nat, offset: int): (c: GlCall)
    requires 4 * k + 3 < |l.data|
    ensures !c.Enable? && c.location == k
    ensures c.AttribIPointer? <==> l.data[4 * k + 3] != 0
    ensures c.AttribPointer? ==> c.normalized == (l.data[4 * k + 2] == 1)
    ensures c.count == l.data[4 * k] && c.glType == l.data[4 * k + 1]
    ensures c.stride == l.bytesPerVertex && c.offset == offset
  {
    if l.data[4 * k + 3] == 0 then
      AttribPointer(k, l.data[4 * k], l.data[4 * k + 1], l.data[4 * k + 2] == 1, l.bytesPerVertex, offset)
    else
      AttribIPointer(k, l.data[4 * k], l.data[4 * k + 1], l.bytesPerVertex, offset)
  }

  /** The calls for the first `k` attributes: pointer then enable, at the running offset. */
  predicate CallsUpTo(l: Layout, calls: seq<GlCall>, k: nat)
    requires Valid(l) && k <= l.attributeCount
  {
    |calls| == 2 * k
    && forall j :: 0 <= j < k ==>
      calls[2 * j] == PointerCall(l, j, Width(l.data, j)) && calls[2 * j + 1] == Enable(j)
  }

  /** One loop iteration extends the calls by the next attribute's pair. */
  lemma ExtendCalls(l: Layout, calls: seq<GlCall>, k: nat)
    requires Valid(l) && k < l.attributeCount && CallsUpTo(l, calls, k)
    ensures CallsUpTo(l, calls + [PointerCall(l, k, Width(l.data, k)), Enable(k)], k + 1)
  {
    var c2 := calls + [PointerCall(l, k, Width(l.data, k)), Enable(k)];
    forall j | 0 <= j < k + 1
      ensures c2[2 * j] == PointerCall(l, j, Width(l.data, j)) && c2[2 * j + 1] == Enable(j)
    {
      if j < k {
        assert c2[2 * j] == calls[2 * j] && c2[2 * j + 1] == calls[2 * j + 1];
      }
    }
  }

  /**
   * `setupAttribPointers`. Attribute `k` gets location `k`, its
   * pointer call, then its enable call, at the offset of the widths before it.
   */
  method SetupAttribPointers(l: Layout) returns (calls: seq<GlCall>, offset: int)
    requires Valid(l)
    ensures CallsUpTo(l, calls, l.attributeCount)
    ensures offset == l.bytesPerVertex
  {
    calls := [];
    offset := 0;
    var k := 0;
    while k < l.attributeCount
      invariant 0 <= k <= l.attributeCount
      invariant offset == Width(l.data, k)
      invariant CallsUpTo(l, calls, k)
    {
      var glType := l.data[4 * k + 1];
      assert Supported(glType);
      ExtendCalls(l, calls, k);
      calls := calls + [PointerCall(l, k, offset), Enable(k)];
      WidthStep(l.data, k);
      offset := offset + TypeBytes(glType).value * l.data[4 * k];
      k := k + 1;
    }
  }
}

/**
 * `RenderUtils`: the lazily built default vertex layout and the projection
 * matrix cached against the field of view.
 */
module RenderUtils {
  import opened Wrappers
  import opened VertexLayout
  import Mat4

  /** The attributes of `defaultVertexLayout`: position, color, UV, normal, transform index. */
  function BuildDefault(): Result<Layout> {
    var l0 := EMPTY;
    var l1 := Attribute(l0, GL_FLOAT, 3, false, false).value;
    var l2 := Attribute(l1, GL_UNSIGNED_BYTE, 4, true, false).value;
    var l3 := Attribute(l2, GL_FLOAT, 2, false, false).value;
    var l4 := Attribute(l3, GL_FLOAT, 3, false, false).value;
    Attribute(l4, GL_SHORT, 1, false, true)
  }

  /** The default layout: five supported attributes totalling 38 bytes per vertex. */
  lemma DefaultLayout()
    ensures var r := BuildDefault();
      r.Ok? && Valid(r.value)
      && r.value.bytesPerVertex == 38 && r.value.attributeCount == 5
      && r.value.data == [3, GL_FLOAT, 0, 0, 4, GL_UNSIGNED_BYTE, 1, 0, 2, GL_FLOAT, 0, 0,
                          3, GL_FLOAT, 0, 0, 1, GL_SHORT, 0, 1]
  {
    var l4 := DefaultPrefix();
    AttributeKeepsValid(l4, GL_SHORT, 1, false, true);
  }

  /** The first four attributes: position, color, UV and normal, 36 bytes. */
  lemma DefaultPrefix() returns (l4: Layout)
    ensures l4 == Attribute(Attribute(Attribute(Attribute(EMPTY, GL_FLOAT, 3, false, false).value,
                              GL_UNSIGNED_BYTE, 4, true, false).value, GL_FLOAT, 2, false, false).value,
                            GL_FLOAT, 3, false, false).value
    ensures Valid(l4)
    ensures l4 == Layout([3, GL_FLOAT, 0, 0, 4, GL_UNSIGNED_BYTE, 1, 0, 2, GL_FLOAT, 0, 0, 3, GL_FLOAT, 0, 0], 36, 4)
  {
    var l2 := DefaultColor();
    var l3 := Attribute(l2, GL_FLOAT, 2, false, false).value;
    AttributeKeepsValid(l2, GL_FLOAT, 2, false, false);
    assert l3 == Layout([3, GL_FLOAT, 0, 0, 4, GL_UNSIGNED_BYTE, 1, 0, 2, GL_FLOAT, 0, 0], 24, 3);
    l4 := Attribute(l3, GL_FLOAT, 3, false, false).value;
    AttributeKeepsValid(l3, GL_FLOAT, 3, false, false);
  }

  /** The first two attributes: position and color, 16 bytes. */
  lemma DefaultColor() returns (l2: Layout)
    ensures l2 == Attribute(Attribute(EMPTY, GL_FLOAT, 3, false, false).value, GL_UNSIGNED_BYTE, 4, true, false).value
    ensures Valid(l2)
    ensures l2 == Layout([3, GL_FLOAT, 0, 0, 4, GL_UNSIGNED_BYTE, 1, 0], 16, 2)
  {
    var l1 := Attribute(EMPTY, GL_FLOAT, 3, false, false).value;
    AttributeKeepsValid(EMPTY, GL_FLOAT, 3, false, false);
    assert l1 == Layout([3, GL_FLOAT, 0, 0], 12, 1);
    l2 := Attribute(l1, GL_UNSIGNED_BYTE, 4, true, false).value;
    AttributeKeepsValid(l1, GL_UNSIGNED_BYTE, 4, true, false);
  }

  const DEFAULT_BYTES_PER_VERTEX := 38

  /**
   * `defaultVertexLayout` over the cache field: built on the
   * first call, then the cached layout is returned.
   */
  function DefaultVertexLayout(cache: Option<Layout>): (r: (Layout, Option<Layout>))
    ensures cache.Some? ==> r == (cache.value, cache)
    ensures cache.None? ==> r.1 == Some(r.0) && r.0 == BuildDefault().value && r.0.bytesPerVertex == 38
  {
    DefaultLayout();
    if cache.Some? then (cache.value, cache) else var l := BuildDefault().value; (l, Some(l))
  }

  /** A second request returns what the first one built. */
  lemma DefaultLayoutIsShared(cache: Option<Layout>)
    ensures var (a, c1) := DefaultVertexLayout(cache);
      var (b, c2) := DefaultVertexLayout(c1);
      a == b && c1 == c2
  {
  }

  /** The projection cache fields: `lastFov` starts at 0 and `projMat` at null. */
  datatype ProjectionCache = ProjectionCache(lastFov: real, projMat: Option<Mat4.Matrix4>)

  const INITIAL_CACHE := ProjectionCache(0.0, None)

  /**
   * `getMCProjectionMatrix` with the current field of view and
   * the game's projection for a given field of view as inputs.
   */
  function GetProjection(cache: ProjectionCache, fov: real, basic: real -> Mat4.Matrix4): (r: (Option<Mat4.Matrix4>, ProjectionCache))
    ensures fov != cache.lastFov ==> r.0 == Some(basic(fov)) && r.1 == ProjectionCache(fov, Some(basic(fov)))
    ensures fov == cache.lastFov ==> r == (cache.projMat, cache)
  {
    if fov != cache.lastFov then
      var m := basic(fov);
      (Some(m), ProjectionCache(fov, Some(m)))
    else (cache.projMat, cache)
  }

  /** Once a field of view has been seen, asking again at it returns the cached matrix for it. */
  lemma ProjectionCached(cache: ProjectionCache, fov: real, basic: real -> Mat4.Matrix4)
    ensures var (m1, c1) := GetProjection(cache, fov, basic);
      var (m2, c2) := GetProjection(c1, fov, basic);
      m2 == m1 && c2 == c1
  {
  }

  /** The first request at field of view 0 finds the cache "valid" and returns no matrix. */
  lemma ZeroFovFirstCallIsNull(basic: real -> Mat4.Matrix4)
    ensures GetProjection(INITIAL_CACHE, 0.0, basic).0 == None
  {
  }
}
