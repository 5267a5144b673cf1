/**
 * `VertexDataDeserializer`: reads the cuboid records of a model compound
 * back and writes four vertices and six indices per textured face. The
 * vertex and index buffers are modelled as the vertices and indices written,
 * against capacities fixed up front.
 */
module VertexDataDeserializer {
  import opened Wrappers
  import opened Vectors
  import opened ByteCodec
  import opened BBModelSerializer
  import MathUtils
  import RenderUtils

  const NOT_COMPOUND := "Illegal nbt type, must be Compound."

  /** The buffer allocation's complaint about a negative size; the JDK words it with the size. */
  const NEGATIVE_CAPACITY := "capacity < 0"

  /** The model element: a compound, or an element of any other NBT type. */
  datatype Nbt = Compound(model: ModelNbt) | NotCompound

  /** A face as read: skipped (texture byte -1), or its rotation byte and `u1, v1, u2, v2`. */
  datatype DecodedFace = Blank | Face(rot: int, uv: seq<real>)

  /** One face's bytes, as each of the six face blocks of `processCuboid` reads them. */
  function ReadFace(fc: FloatCodec, flags: Flags, index: nat, s: seq<Byte>): (r: Result<(DecodedFace, seq<Byte>)>)
    requires index < 6
    ensures r.Err? ==> r.error == BufferUnderflow
    ensures r.Ok? && r.value.0.Face? ==> |r.value.0.uv| == 4
  {
    match ReadByte(s)
    case Err(e) => Err(e)
    case Ok(t) =>
      if Signed8(t.0) == -1 then Ok((Blank, t.1))
      else
        match ReadByte(t.1)
        case Err(e) => Err(e)
        case Ok(rt) =>
          match ReadNumbers(fc, flags, 6 + 4 * index, 4, rt.1)
          case Err(e) => Err(e)
          case Ok(uv) => Ok((Face(Signed8(rt.0), uv.0), uv.1))
  }

  /** What the reader recovers of an encoded face. */
  function Expected(fc: FloatCodec, flags: Flags, index: nat, f: FaceData): DecodedFace
    requires index < 6 && |f.uv| == 4
  {
    if f.tex == NO_TEXTURE then Blank else Face(Signed8(f.rot), StoredAll(fc, flags, 6 + 4 * index, f.uv))
  }

  lemma FaceRoundTrip(fc: FloatCodec, flags: Flags, index: nat, f: FaceData, rest: seq<Byte>)
    requires index < 6 && |f.uv| == 4
    ensures ReadFace(fc, flags, index, FaceRecord(fc, flags, index, f) + rest) == Ok((Expected(fc, flags, index, f), rest))
  {
    var s := FaceRecord(fc, flags, index, f) + rest;
    assert s[0] == f.tex;
    if f.tex != NO_TEXTURE {
      var uvBytes := PutNumbers(fc, flags, 6 + 4 * index, f.uv);
      assert s[1..] == [f.rot] + (uvBytes + rest);
      assert s[1..][1..] == uvBytes + rest;
      NumbersRoundTrip(fc, flags, 6 + 4 * index, f.uv, rest);
    } else {
      assert s[1..] == rest;
    }
  }

  /**
   * Double arithmetic the model takes as parameters: `Vector3.normalized`
   * and the division of `Vector2.divide`, zero divisors included.
   */
  datatype Geometry = Geometry(fc: FloatCodec, normalize: Vector3 -> Vector3, divide: (real, real) -> real)

  /** Division that is exact for nonzero divisors, as real division is. */
  ghost predicate ExactDivision(g: Geometry) {
    forall x: real, y: real :: y != 0.0 ==> g.divide(x, y) * y == x
  }

  /** One vertex: position, UV, normal and the transform index of its cuboid. */
  datatype Vertex = Vertex(pos: Vector3, uv: Vector2, normal: Vector3, index: int)

  /** What the two buffers hold: written vertices and indices. */
  datatype Mesh = Mesh(vertices: seq<Vertex>, indices: seq<int>)

  const EMPTY_MESH := Mesh([], [])

  /** The buffers' capacities, in vertices and in indices. */
  datatype Capacity = Capacity(vertices: int, indices: int)

  /** Every index names a written vertex. */
  predicate IndicesInRange(m: Mesh) {
    forall i :: 0 <= i < |m.indices| ==> 0 <= m.indices[i] < |m.vertices|
  }

  /** The corners `processCuboid` passes to `addFace` for face `face`, top left first, clockwise. */
  function Corners(face: nat, from: Vector3, to: Vector3): (r: seq<Vector3>)
    requires face < 6
    ensures |r| == 4
  {
    if face == 0 then
      [Vector3(to.x, to.y, from.z), Vector3(from.x, to.y, from.z), Vector3(from.x, from.y, from.z), Vector3(to.x, from.y, from.z)]
    else if face == 1 then
      [Vector3(to.x, to.y, to.z), Vector3(to.x, to.y, from.z), Vector3(to.x, from.y, from.z), Vector3(to.x, from.y, to.z)]
    else if face == 2 then
      [Vector3(from.x, to.y, to.z), Vector3(to.x, to.y, to.z), Vector3(to.x, from.y, to.z), Vector3(from.x, from.y, to.z)]
    else if face == 3 then
      [Vector3(from.x, to.y, from.z), Vector3(from.x, to.y, to.z), Vector3(from.x, from.y, to.z), Vector3(from.x, from.y, from.z)]
    else if face == 4 then
      [Vector3(from.x, to.y, from.z), Vector3(to.x, to.y, from.z), Vector3(to.x, to.y, to.z), Vector3(from.x, to.y, to.z)]
    else
      [Vector3(from.x, from.y, to.z), Vector3(to.x, from.y, to.z), Vector3(to.x, from.y, from.z), Vector3(from.x, from.y, from.z)]
  }

  /** The outward direction of each face: north is -z, east +x, south +z, west -x, up +y, down -y. */
  function Outward(face: nat): Vector3
    requires face < 6
  {
    [Vector3(0.0, 0.0, -1.0), Vector3(1.0, 0.0, 0.0), Vector3(0.0, 0.0, 1.0),
     Vector3(-1.0, 0.0, 0.0), Vector3(0.0, 1.0, 0.0), Vector3(0.0, -1.0, 0.0)][face]
  }

  /** The unnormalised normal `addFace` computes from the first three corners. */
  function RawNormal(ps: seq<Vector3>): Vector3
    requires |ps| >= 3
  {
    ps[0].Subtract(ps[1]).Cross(ps[2].Subtract(ps[1]))
  }

  /** For a box with `from` below `to` on every axis, every face's normal points out of the box. */
  lemma NormalsPointOutward(from: Vector3, to: Vector3, face: nat)
    requires face < 6 && from.x < to.x && from.y < to.y && from.z < to.z
    ensures RawNormal(Corners(face, from, to)).Dot(Outward(face)) > 0.0
  {
    var dx, dy, dz := to.x - from.x, to.y - from.y, to.z - from.z;
    assert dx * dy > 0.0 && dy * dz > 0.0 && dx * dz > 0.0 by {
      PositiveProduct(dx, dy);
      PositiveProduct(dy, dz);
      PositiveProduct(dx, dz);
    }
  }

  lemma PositiveProduct(a: real, b: real)
    requires a > 0.0 && b > 0.0
    ensures a * b > 0.0
  {
  }

  /** The loop of `rotateUV`: the corner list turned right once per step, `rot` steps. */
  function Rotations(c: seq<Vector2>, rot: int): (r: seq<Vector2>)
    requires |c| == 4
    ensures |r| == 4
    decreases rot
  {
    if rot <= 0 then c else Rotations([c[3]] + c[..3], rot - 1)
  }

  /** `rotateUV`. */
  function RotateUV(u1: real, v1: real, u2: real, v2: real, rot: int): (r: seq<Vector2>)
    ensures |r| == 4
  {
    Rotations([Vector2(u1, v1), Vector2(u2, v1), Vector2(u2, v2), Vector2(u1, v2)], rot)
  }

  /** After `rot >= 0` steps, corner `i` is the original corner `(i - rot) mod 4`. */
  lemma {:induction false} RotationsShift(c: seq<Vector2>, rot: int, i: int)
    requires |c| == 4 && rot >= 0 && 0 <= i < 4
    ensures Rotations(c, rot)[i] == c[(i - rot) % 4]
    decreases rot
  {
    if rot > 0 {
      var c1 := [c[3]] + c[..3];
      RotationsShift(c1, rot - 1, i);
      var j := (i - (rot - 1)) % 4;
      assert c1[j] == if j == 0 then c[3] else c[j - 1];
      assert (i - rot) % 4 == if j == 0 then 3 else j - 1;
    }
  }

  /** A negative or zero rotation is the identity, and rotations repeat every four steps. */
  lemma RotationsPeriodic(c: seq<Vector2>, rot: int)
    requires |c| == 4
    ensures rot <= 0 ==> Rotations(c, rot) == c
    ensures rot >= 0 ==> Rotations(c, rot + 4) == Rotations(c, rot)
  {
    if rot >= 0 {
      forall i | 0 <= i < 4 ensures Rotations(c, rot + 4)[i] == Rotations(c, rot)[i] {
        RotationsShift(c, rot + 4, i);
        RotationsShift(c, rot, i);
      }
    }
  }

  /**
   * `m1` is `m` with more written after it: both buffers keep their
   * contents, every new vertex carries `tag`, and indices stay in range.
   */
  predicate Extends(m: Mesh, m1: Mesh, tag: int) {
    |m.vertices| <= |m1.vertices| && |m.indices| <= |m1.indices|
    && m1.vertices[..|m.vertices|] == m.vertices && m1.indices[..|m.indices|] == m.indices
    && (forall j :: |m.vertices| <= j < |m1.vertices| ==> m1.vertices[j].index == tag)
    && (IndicesInRange(m) ==> IndicesInRange(m1))
  }

  lemma ExtendsTransitive(m: Mesh, m1: Mesh, m2: Mesh, tag: int)
    requires Extends(m, m1, tag) && Extends(m1, m2, tag)
    ensures Extends(m, m2, tag)
  {
    assert m2.vertices[..|m.vertices|] == m2.vertices[..|m1.vertices|][..|m.vertices|];
    assert m2.indices[..|m.indices|] == m2.indices[..|m1.indices|][..|m.indices|];
    forall j | |m.vertices| <= j < |m2.vertices| ensures m2.vertices[j].index == tag {
      if j < |m1.vertices| { assert m2.vertices[j] == m2.vertices[..|m1.vertices|][j]; }
    }
  }

  /**
   * `addFace`. Four vertices tagged with the cuboid's index
   * as a short, then two triangles over them; either buffer running out
   * throws.
   */
  function AddFace(g: Geometry, m: Mesh, caps: Capacity, ps: seq<Vector3>, uvs: seq<Vector2>, texSize: Vector2, partIndex: int): (r: Result<Mesh>)
    requires |ps| == 4 && |uvs| == 4
    ensures r.Err? <==> |m.vertices| + 4 > caps.vertices || |m.indices| + 6 > caps.indices
    ensures r.Err? ==> r.error == BufferOverflow
    ensures r.Ok? ==> |r.value.vertices| == |m.vertices| + 4 && |r.value.indices| == |m.indices| + 6
    ensures r.Ok? ==> Extends(m, r.value, Wrap16(partIndex))
  {
    if |m.vertices| + 4 > caps.vertices || |m.indices| + 6 > caps.indices then Err(BufferOverflow)
    else
      var b := |m.vertices|;
      var normal := g.normalize(RawNormal(ps));
      var vs := seq(4, k requires 0 <= k < 4 =>
        Vertex(ps[k], Vector2(g.divide(uvs[k].x, texSize.x), g.divide(uvs[k].y, texSize.y)), normal, Wrap16(partIndex)));
      var r := Mesh(m.vertices + vs, m.indices + [b, b + 2, b + 1, b, b + 3, b + 2]);
      assert r.vertices[..b] == m.vertices && r.indices[..|m.indices|] == m.indices;
      assert forall i :: |m.indices| <= i < |r.indices| ==> 0 <= r.indices[i] < |r.vertices|;
      Ok(r)
  }

  /** One face block of `processCuboid`: read a face and write it if it is textured. */
  function DecodeFace(g: Geometry, flags: Flags, index: nat, s: seq<Byte>, from: Vector3, to: Vector3,
                      texSize: Vector2, partIndex: int, m: Mesh, caps: Capacity): (r: Result<(Mesh, seq<Byte>)>)
    requires index < 6
    ensures r.Ok? ==> Extends(m, r.value.0, Wrap16(partIndex))
    ensures r.Err? ==> r.error == BufferUnderflow || r.error == BufferOverflow
  {
    match ReadFace(g.fc, flags, index, s)
    case Err(e) => Err(e)
    case Ok(read) =>
      match read.0
      case Blank => Ok((m, read.1))
      case Face(rot, uv) =>
        match AddFace(g, m, caps, Corners(index, from, to), RotateUV(uv[0], uv[1], uv[2], uv[3], rot), texSize, partIndex)
        case Err(e) => Err(e)
        case Ok(m1) => Ok((m1, read.1))
  }

  /**
   * The four new vertices sit at the face's corners, and with exact
   * division and a nonzero texture size their UVs scaled back up are the
   * face's UVs.
   */
  lemma AddFaceWrites(g: Geometry, m: Mesh, caps: Capacity, ps: seq<Vector3>, uvs: seq<Vector2>, texSize: Vector2, partIndex: int, j: nat)
    requires |ps| == 4 && |uvs| == 4 && j < 4 && ExactDivision(g)
    requires AddFace(g, m, caps, ps, uvs, texSize, partIndex).Ok?
    ensures var v := AddFace(g, m, caps, ps, uvs, texSize, partIndex).value.vertices[|m.vertices| + j];
      v.pos == ps[j]
      && (texSize.x != 0.0 ==> v.uv.x * texSize.x == uvs[j].x)
      && (texSize.y != 0.0 ==> v.uv.y * texSize.y == uvs[j].y)
  {
  }

  /** The face blocks of `processCuboid`: the six faces in order, north, east, south, west, up, down. */
  function DecodeFaces(g: Geometry, flags: Flags, index: nat, s: seq<Byte>, from: Vector3, to: Vector3,
                       texSize: Vector2, partIndex: int, m: Mesh, caps: Capacity): (r: Result<(Mesh, seq<Byte>)>)
    requires index <= 6
    ensures r.Ok? ==> Extends(m, r.value.0, Wrap16(partIndex))
    ensures r.Err? ==> r.error == BufferUnderflow || r.error == BufferOverflow
    decreases 6 - index
  {
    if index == 6 then Ok((m, s))
    else
      match DecodeFace(g, flags, index, s, from, to, texSize, partIndex, m, caps)
      case Err(e) => Err(e)
      case Ok(step) =>
        var r := DecodeFaces(g, flags, index + 1, step.1, from, to, texSize, partIndex, step.0, caps);
        if r.Ok? then ExtendsTransitive(m, step.0, r.value.0, Wrap16(partIndex)); r
        else r
  }

  /** The start of `processCuboid`: the flag word and the two corners, scaled from part to world units. */
  function ReadHeader(fc: FloatCodec, s: seq<Byte>): (r: Result<(Flags, Vector3, Vector3, seq<Byte>)>)
    ensures r.Err? ==> r.error == BufferUnderflow
  {
    match ReadInt(s)
    case Err(e) => Err(e)
    case Ok(fw) =>
      var flags := FlagsOf(fw.0);
      match ReadNumbers(fc, flags, 0, 6, fw.1)
      case Err(e) => Err(e)
      case Ok(ns) =>
        var xs := ns.0;
        Ok((flags, MathUtils.PartToWorld(Vector3(xs[0], xs[1], xs[2])),
            MathUtils.PartToWorld(Vector3(xs[3], xs[4], xs[5])), ns.1))
  }

  /** `processCuboid`, for the cuboid at position `index`. */
  function DecodeCuboid(g: Geometry, s: seq<Byte>, texSize: Vector2, index: int, m: Mesh, caps: Capacity): (r: Result<(Mesh, seq<Byte>)>)
    ensures r.Ok? ==> Extends(m, r.value.0, Wrap16(index))
    ensures r.Err? ==> r.error == BufferUnderflow || r.error == BufferOverflow
  {
    match ReadHeader(g.fc, s)
    case Err(e) => Err(e)
    case Ok(h) => DecodeFaces(g, h.0, 0, h.3, h.1, h.2, texSize, index, m, caps)
  }

  /** The cuboid loop of `deserialize`: cuboids `i` to `n - 1`, in order. */
  function DecodeCuboids(g: Geometry, i: int, n: int, s: seq<Byte>, texSize: Vector2, m: Mesh, caps: Capacity): (r: Result<Mesh>)
    ensures r.Ok? ==> |m.vertices| <= |r.value.vertices| && |m.indices| <= |r.value.indices|
    ensures r.Ok? && IndicesInRange(m) ==> IndicesInRange(r.value)
    ensures r.Err? ==> r.error == BufferUnderflow || r.error == BufferOverflow
    decreases n - i
  {
    if i >= n then Ok(m)
    else
      match DecodeCuboid(g, s, texSize, i, m, caps)
      case Err(e) => Err(e)
      case Ok(c) => DecodeCuboids(g, i + 1, n, c.1, texSize, c.0, caps)
  }

  /**
   * `deserialize`. The vertex buffer holds `38 * vertexCount`
   * bytes, a Java int product; a negative size is rejected by the buffer
   * allocation.
   */
  function Deserialize(g: Geometry, nbt: Nbt): (r: Result<Mesh>)
    ensures nbt.NotCompound? ==> r == Err(IllegalArgument(NOT_COMPOUND))
    ensures nbt.Compound? && nbt.model.version != VERSION ==>
      r == Err(IllegalArgument("Invalid version. Requires " + VERSION + ", got " + nbt.model.version + "."))
    ensures r.Ok? ==> IndicesInRange(r.value)
  {
    match nbt
    case NotCompound => Err(IllegalArgument(NOT_COMPOUND))
    case Compound(model) =>
      if model.version != VERSION then
        Err(IllegalArgument("Invalid version. Requires " + VERSION + ", got " + model.version + "."))
      else
        var vertexBytes := MathUtils.Wrap32(RenderUtils.DEFAULT_BYTES_PER_VERTEX * model.vertexCount);
        if vertexBytes < 0 then Err(IllegalArgument(NEGATIVE_CAPACITY))
        else if model.indexCount < 0 then Err(IllegalArgument(NEGATIVE_CAPACITY))
        else
          var caps := Capacity(vertexBytes / RenderUtils.DEFAULT_BYTES_PER_VERTEX, model.indexCount);
          var texSize := Vector2(model.texWidth as real, model.texHeight as real);
          DecodeCuboids(g, 0, model.numCuboids, model.vertexData, texSize, EMPTY_MESH, caps)
  }

  /** Reading the header of a record gives back its flags and its corners as stored. */
  lemma HeaderRoundTrip(fc: FloatCodec, e: Encoded, rest: seq<Byte>)
    requires |e.faces| == 6 && forall i :: 0 <= i < 6 ==> |e.faces[i].uv| == 4
    ensures var xs := StoredAll(fc, e.flags, 0, [e.from.x, e.from.y, e.from.z, e.to.x, e.to.y, e.to.z]);
      ReadHeader(fc, CuboidBytes(fc, e) + rest)
        == Ok((e.flags, MathUtils.PartToWorld(Vector3(xs[0], xs[1], xs[2])),
               MathUtils.PartToWorld(Vector3(xs[3], xs[4], xs[5])), FaceBytes(fc, e.flags, e.faces, 0) + rest))
  {
    var corners := [e.from.x, e.from.y, e.from.z, e.to.x, e.to.y, e.to.z];
    var tail := PutNumbers(fc, e.flags, 0, corners) + (FaceBytes(fc, e.flags, e.faces, 0) + rest);
    assert CuboidBytes(fc, e) + rest == IntBytes(FlagsValue(e.flags)) + tail;
    IntRoundTrip(FlagsValue(e.flags), tail);
    FlagsRoundTrip(e.flags);
    NumbersRoundTrip(fc, e.flags, 0, corners, FaceBytes(fc, e.flags, e.faces, 0) + rest);
  }

  /**
   * With flags marking exactly the non-whole numbers, a whole corner
   * coordinate within the short range comes back exactly, and any other
   * comes back as its float.
   */
  lemma CornerExact(fc: FloatCodec, e: Encoded, k: nat)
    requires |e.faces| == 6 && (forall i :: 0 <= i < 6 ==> |e.faces[i].uv| == 4) && MarksNonIntegral(e)
    requires k < 6
    ensures var x := Slot(e, k);
      var stored := StoredAll(fc, e.flags, 0, [e.from.x, e.from.y, e.from.z, e.to.x, e.to.y, e.to.z])[k];
      (Integral(x) && -32768.0 <= x <= 32767.0 ==> stored == x) && (!Integral(x) ==> stored == AsFloat(fc, x))
  {
    var corners := [e.from.x, e.from.y, e.from.z, e.to.x, e.to.y, e.to.z];
    assert Slot(e, k) == corners[k];
    StoredWhole(fc, e.flags, k, corners[k]);
  }

  /** Both buffers have room for `t` more faces. */
  predicate Room(m: Mesh, caps: Capacity, t: int) {
    |m.vertices| + 4 * t <= caps.vertices && |m.indices| + 6 * t <= caps.indices
  }

  /** The read succeeded, stopped at `rest` and wrote `t` faces after `m`. */
  predicate Filled(r: Result<(Mesh, seq<Byte>)>, m: Mesh, t: int, rest: seq<Byte>) {
    r.Ok? && r.value.1 == rest
    && |r.value.0.vertices| == |m.vertices| + 4 * t && |r.value.0.indices| == |m.indices| + 6 * t
  }

  /** Faces `index..` with four UVs each, as a record lays them out. */
  predicate FacesShaped(faces: seq<FaceData>, index: nat) {
    index + |faces| == 6 && forall i :: 0 <= i < |faces| ==> |faces[i].uv| == 4
  }

  /** A face's record is read back and written, adding four vertices and six indices when textured. */
  lemma FaceStep(g: Geometry, flags: Flags, index: nat, f: FaceData, rest: seq<Byte>,
                 from: Vector3, to: Vector3, texSize: Vector2, partIndex: int, m: Mesh, caps: Capacity)
    requires index < 6 && |f.uv| == 4 && Room(m, caps, TexturedOne(f))
    ensures Filled(DecodeFace(g, flags, index, FaceRecord(g.fc, flags, index, f) + rest, from, to, texSize, partIndex, m, caps),
                   m, TexturedOne(f), rest)
  {
    FaceRoundTrip(g.fc, flags, index, f, rest);
  }

  /**
   * Reading faces `index..5` of a record writes four vertices and six
   * indices per textured face and stops right after them, when both
   * buffers have room.
   */
  lemma {:induction false} FacesRoundTrip(g: Geometry, flags: Flags, faces: seq<FaceData>, index: nat, rest: seq<Byte>,
                                          from: Vector3, to: Vector3, texSize: Vector2, partIndex: int, m: Mesh, caps: Capacity)
    requires FacesShaped(faces, index) && Room(m, caps, Textured(faces))
    ensures Filled(DecodeFaces(g, flags, index, FaceBytes(g.fc, flags, faces, index) + rest, from, to, texSize, partIndex, m, caps),
                   m, Textured(faces), rest)
    decreases |faces|, 1
  {
    if faces == [] {
      assert FaceBytes(g.fc, flags, faces, index) + rest == rest;
    } else {
      FacesRoundTripCons(g, flags, faces, index, rest, from, to, texSize, partIndex, m, caps);
    }
  }

  lemma {:induction false} FacesRoundTripCons(g: Geometry, flags: Flags, faces: seq<FaceData>, index: nat, rest: seq<Byte>,
                                              from: Vector3, to: Vector3, texSize: Vector2, partIndex: int, m: Mesh, caps: Capacity)
    requires faces != [] && FacesShaped(faces, index) && Room(m, caps, Textured(faces))
    ensures Filled(DecodeFaces(g, flags, index, FaceBytes(g.fc, flags, faces, index) + rest, from, to, texSize, partIndex, m, caps),
                   m, Textured(faces), rest)
    decreases |faces|, 0
  {
    var s := FaceBytes(g.fc, flags, faces, index) + rest;
    var tail := FaceBytes(g.fc, flags, faces[1..], index + 1) + rest;
    var t := TexturedOne(faces[0]);
    assert Textured(faces) == t + Textured(faces[1..]);
    FaceBytesCons(g.fc, flags, faces, index, rest);
    FaceStep(g, flags, index, faces[0], tail, from, to, texSize, partIndex, m, caps);
    var step := DecodeFace(g, flags, index, s, from, to, texSize, partIndex, m, caps);
    FacesRoundTrip(g, flags, faces[1..], index + 1, rest, from, to, texSize, partIndex, step.value.0, caps);
    FacesCons(g, flags, index, s, from, to, texSize, partIndex, m, caps);
    FilledCompose(step, DecodeFaces(g, flags, index + 1, tail, from, to, texSize, partIndex, step.value.0, caps),
                  m, t, Textured(faces[1..]), tail, rest);
  }

  lemma FilledCompose(r1: Result<(Mesh, seq<Byte>)>, r2: Result<(Mesh, seq<Byte>)>, m: Mesh, t1: int, t2: int,
                      mid: seq<Byte>, rest: seq<Byte>)
    requires Filled(r1, m, t1, mid) && Filled(r2, r1.value.0, t2, rest)
    ensures Filled(r2, m, t1 + t2, rest)
  {
  }

  lemma FaceBytesCons(fc: FloatCodec, flags: Flags, faces: seq<FaceData>, index: nat, rest: seq<Byte>)
    requires faces != [] && index + |faces| <= 6 && forall i :: 0 <= i < |faces| ==> |faces[i].uv| == 4
    ensures FaceBytes(fc, flags, faces, index) + rest
      == FaceRecord(fc, flags, index, faces[0]) + (FaceBytes(fc, flags, faces[1..], index + 1) + rest)
  {
  }

  /** Past the first face, the rest of the faces are read from where it ended, into what it wrote. */
  lemma FacesCons(g: Geometry, flags: Flags, index: nat, s: seq<Byte>, from: Vector3, to: Vector3,
                  texSize: Vector2, partIndex: int, m: Mesh, caps: Capacity)
    requires index < 6 && DecodeFace(g, flags, index, s, from, to, texSize, partIndex, m, caps).Ok?
    ensures var step := DecodeFace(g, flags, index, s, from, to, texSize, partIndex, m, caps).value;
      DecodeFaces(g, flags, index, s, from, to, texSize, partIndex, m, caps)
        == DecodeFaces(g, flags, index + 1, step.1, from, to, texSize, partIndex, step.0, caps)
  {
  }

  /** A well-formed record decodes completely, adding what its counts promise. */
  lemma CuboidRoundTrip(g: Geometry, e: Encoded, rest: seq<Byte>, texSize: Vector2, index: int, m: Mesh, caps: Capacity)
    requires WellFormed(g.fc, e) && Room(m, caps, Textured(e.faces))
    ensures Filled(DecodeCuboid(g, e.bytes + rest, texSize, index, m, caps), m, Textured(e.faces), rest)
  {
    HeaderRoundTrip(g.fc, e, rest);
    var h := ReadHeader(g.fc, e.bytes + rest).value;
    FacesRoundTrip(g, e.flags, e.faces, 0, rest, h.1, h.2, texSize, index, m, caps);
  }

  /** Every record of the run is well formed. */
  predicate AllWellFormed(fc: FloatCodec, records: seq<Encoded>) {
    forall k :: 0 <= k < |records| ==> WellFormed(fc, records[k])
  }

  /** `m1` holds exactly the vertices and indices of `c` more than `m`. */
  predicate Grown(m: Mesh, m1: Mesh, c: Counts) {
    |m1.vertices| == |m.vertices| + c.vertices && |m1.indices| == |m.indices| + c.indices
  }

  /** A run of well-formed records decodes completely, adding what its tally promises. */
  lemma {:induction false} CuboidsRoundTrip(g: Geometry, records: seq<Encoded>, i: int, n: int, rest: seq<Byte>, texSize: Vector2, m: Mesh, caps: Capacity)
    requires n - i == |records| && AllWellFormed(g.fc, records)
    requires |m.vertices| + Tally(records).vertices <= caps.vertices && |m.indices| + Tally(records).indices <= caps.indices
    ensures var r := DecodeCuboids(g, i, n, Concat(records) + rest, texSize, m, caps);
      r.Ok? && Grown(m, r.value, Tally(records))
    decreases |records|, 1
  {
    if records != [] {
      CuboidsRoundTripCons(g, records, i, n, rest, texSize, m, caps);
    } else {
      assert Concat(records) + rest == rest;
    }
  }

  lemma {:induction false} CuboidsRoundTripCons(g: Geometry, records: seq<Encoded>, i: int, n: int, rest: seq<Byte>, texSize: Vector2, m: Mesh, caps: Capacity)
    requires records != [] && n - i == |records| && AllWellFormed(g.fc, records)
    requires |m.vertices| + Tally(records).vertices <= caps.vertices && |m.indices| + Tally(records).indices <= caps.indices
    ensures var r := DecodeCuboids(g, i, n, Concat(records) + rest, texSize, m, caps);
      r.Ok? && Grown(m, r.value, Tally(records))
    decreases |records|, 0
  {
    var s := Concat(records) + rest;
    var tail := Concat(records[1..]) + rest;
    RunCons(g.fc, records, rest);
    CuboidRoundTrip(g, records[0], tail, texSize, i, m, caps);
    var c := DecodeCuboid(g, s, texSize, i, m, caps);
    CuboidsCons(g, i, n, s, texSize, m, caps);
    CuboidsRoundTrip(g, records[1..], i + 1, n, rest, texSize, c.value.0, caps);
  }

  /** A run splits into its first record and the rest: bytes, tally and well-formedness. */
  lemma RunCons(fc: FloatCodec, records: seq<Encoded>, rest: seq<Byte>)
    requires records != [] && AllWellFormed(fc, records)
    ensures Concat(records) + rest == records[0].bytes + (Concat(records[1..]) + rest)
    ensures var t := Textured(records[0].faces);
      Tally(records) == AddCounts(Counts(4 * t, 6 * t, 1), Tally(records[1..]))
    ensures WellFormed(fc, records[0]) && AllWellFormed(fc, records[1..])
  {
    forall k | 0 <= k < |records[1..]| ensures WellFormed(fc, records[1..][k]) {
      assert records[1..][k] == records[k + 1];
    }
  }

  /** Past cuboid `i`, the rest are read from where it ended, into what it wrote. */
  lemma CuboidsCons(g: Geometry, i: int, n: int, s: seq<Byte>, texSize: Vector2, m: Mesh, caps: Capacity)
    requires i < n && DecodeCuboid(g, s, texSize, i, m, caps).Ok?
    ensures var c := DecodeCuboid(g, s, texSize, i, m, caps).value;
      DecodeCuboids(g, i, n, s, texSize, m, caps) == DecodeCuboids(g, i + 1, n, c.1, texSize, c.0, caps)
  {
  }

  /**
   * A model compound straight from `parse` decodes without error and fills
   * both buffers exactly to the counts it carries, with every index naming
   * a written vertex, provided its vertex buffer size fits in a Java int.
   */
  lemma ParseThenDeserialize(g: Geometry, model: BBModel)
    requires Parse(g.fc, model).Ok?
    requires RenderUtils.DEFAULT_BYTES_PER_VERTEX * Parse(g.fc, model).value.vertexCount <= MathUtils.INT_MAX
    ensures var nbt := Parse(g.fc, model).value;
      var r := Deserialize(g, Compound(nbt));
      r.Ok? && |r.value.vertices| == nbt.vertexCount && |r.value.indices| == nbt.indexCount
      && IndicesInRange(r.value)
  {
    var records := ParsedRecords(g.fc, model);
    var nbt := Parse(g.fc, model).value;
    var caps := Capacity(nbt.vertexCount, nbt.indexCount);
    var texSize := Vector2(nbt.texWidth as real, nbt.texHeight as real);
    DeserializeDecodes(g, nbt);
    assert nbt.vertexData == Concat(records) + [];
    CuboidsRoundTrip(g, records, 0, nbt.numCuboids, [], texSize, EMPTY_MESH, caps);
  }

  /** What the serializer writes is the concatenation of well-formed records, with their tally as counts. */
  lemma ParsedRecords(fc: FloatCodec, model: BBModel) returns (records: seq<Encoded>)
    requires Parse(fc, model).Ok?
    ensures var nbt := Parse(fc, model).value;
      AllWellFormed(fc, records) && nbt.vertexData == Concat(records) && nbt.numCuboids == |records|
      && nbt.vertexCount == Tally(records).vertices && nbt.indexCount == Tally(records).indices
  {
    var elements := CollectElementsByUuid(model.elements);
    records := ProcessParts(fc, elements, model.outliner).value.records;
    PartsTally(fc, elements, model.outliner, ProcessParts(fc, elements, model.outliner).value);
  }

  /**
   * A compound of the current version whose vertex buffer fits in a Java int
   * is decoded from byte 0 into buffers sized exactly by its counts.
   */
  lemma DeserializeDecodes(g: Geometry, nbt: ModelNbt)
    requires nbt.version == VERSION && nbt.indexCount >= 0
    requires 0 <= RenderUtils.DEFAULT_BYTES_PER_VERTEX * nbt.vertexCount <= MathUtils.INT_MAX
    ensures Deserialize(g, Compound(nbt))
      == DecodeCuboids(g, 0, nbt.numCuboids, nbt.vertexData, Vector2(nbt.texWidth as real, nbt.texHeight as real),
                       EMPTY_MESH, Capacity(nbt.vertexCount, nbt.indexCount))
  {
    var bytes := RenderUtils.DEFAULT_BYTES_PER_VERTEX * nbt.vertexCount;
    assert MathUtils.Wrap32(bytes) == bytes;
    ByteCodec.DivUnique(bytes, RenderUtils.DEFAULT_BYTES_PER_VERTEX, nbt.vertexCount, 0);
  }
}
