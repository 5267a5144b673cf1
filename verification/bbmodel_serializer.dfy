/**
 * `BBModelSerializer`: converts a parsed Blockbench model into the model
 * record: a part tree mirroring the outliner and one packed byte record per
 * cuboid, emitted in the order the outliner is walked. JSON is taken as
 * already parsed; each JSON object is a datatype whose optional keys are
 * `Option`s.
 */
module BBModelSerializer {
  import opened Wrappers
  import opened Vectors
  import opened ByteCodec
  import opened PartDeserializer

  const VERSION := "0.1.0"

  /** The faces in the order `processCuboid` writes them. */
  const FACE_NAMES: seq<string> := ["north", "east", "south", "west", "up", "down"]

  /** The texture byte `-1`, marking a face without texture. */
  const NO_TEXTURE: Byte := 0xFF

  /** A face's `texture` key: absent, JSON null, or a number read by `getAsByte`. */
  datatype Texture = Missing | JsonNull | Id(id: Byte)

  datatype FaceJson = FaceJson(texture: Texture, rotation: Option<real>, uv: Option<seq<real>>)

  /** The geometry keys of a cuboid element. */
  datatype CuboidJson = CuboidJson(from: Vector3, to: Vector3, inflate: Option<real>, faces: Option<map<string, FaceJson>>)

  /** The keys every outliner object reads. */
  datatype PartJson = PartJson(name: Option<string>, origin: Option<Vector3>, rotation: Option<Vector3>, visibility: Option<bool>)

  /** An entry of the `elements` array. */
  datatype ElementJson = ElementObject(uuid: Option<string>, part: PartJson, cuboid: CuboidJson) | NotObject

  /**
   * An outliner entry: a group object, or the uuid string of an element.
   * `hasChildren` says whether the group has a `children` key.
   */
  datatype Outline = Group(part: PartJson, hasChildren: bool, children: seq<Outline>) | Ref(uuid: string)

  datatype BBModel = BBModel(elements: seq<ElementJson>, width: int, height: int, outliner: seq<Outline>)

  /** `counts`: vertex count, index count, cuboid count. */
  datatype Counts = Counts(vertices: int, indices: int, cuboids: int)

  function AddCounts(a: Counts, b: Counts): Counts {
    Counts(a.vertices + b.vertices, a.indices + b.indices, a.cuboids + b.cuboids)
  }

  const NO_COUNTS := Counts(0, 0, 0)

  /** One face as the arrays `texes`, `rots` and `uvs` hold it after `processFace`. */
  datatype FaceData = FaceData(tex: Byte, rot: Byte, uv: seq<real>)

  /** `(byte) Math.round(rotation / 90)`. */
  function RotationByte(degrees: real): Byte {
    LowByte((degrees / 90.0 + 0.5).Floor)
  }

  /**
   * `processFace`. A JSON-null texture leaves the arrays at
   * their zero defaults apart from the texture byte `-1`.
   */
  function ProcessFace(index: nat, face: Option<FaceJson>, flags: Flags): (r: Result<(FaceData, Flags)>)
    requires index < 6
    ensures face.None? ==> r == Err(NullPointer)
    ensures face.Some? && face.value.texture.JsonNull? ==> r == Ok((FaceData(NO_TEXTURE, 0, [0.0, 0.0, 0.0, 0.0]), flags))
    ensures r.Ok? ==> |r.value.0.uv| == 4
    ensures r.Ok? && r.value.0.tex != NO_TEXTURE ==>
      face.Some? && face.value.uv.Some? && |face.value.uv.value| >= 4 && r.value.0.uv == face.value.uv.value[..4]
    ensures r.Ok? && face.value.texture.Missing? ==> r.value.0.tex == 0
  {
    if face.None? then Err(NullPointer)
    else
      var f := face.value;
      if f.texture.JsonNull? then Ok((FaceData(NO_TEXTURE, 0, [0.0, 0.0, 0.0, 0.0]), flags))
      else
        var rot := if f.rotation.Some? then RotationByte(f.rotation.value) else 0;
        var tex := if f.texture.Id? then f.texture.id else 0;
        if f.uv.None? then Err(NullPointer)
        else if |f.uv.value| < 4 then Err(IndexOutOfBounds)
        else
          var uv := f.uv.value[..4];
          Ok((FaceData(tex, rot, uv), MarkNonIntegral(flags, 6 + 4 * index, uv)))
  }

  /** The face named `FACE_NAMES[index]`, if the cuboid has one. */
  function FaceAt(faces: map<string, FaceJson>, index: nat): Option<FaceJson>
    requires index < 6
  {
    var name := FACE_NAMES[index];
    if name in faces then Some(faces[name]) else None
  }

  /** The faces `index..5`, looked up by name and processed in order. */
  function ProcessFaces(faces: map<string, FaceJson>, index: nat, flags: Flags): (r: Result<(seq<FaceData>, Flags)>)
    requires index <= 6
    decreases 6 - index
    ensures r.Ok? ==> |r.value.0| == 6 - index
    ensures r.Ok? ==> forall i :: 0 <= i < |r.value.0| ==> |r.value.0[i].uv| == 4
  {
    if index == 6 then Ok(([], flags))
    else
      match ProcessFace(index, FaceAt(faces, index), flags)
      case Err(e) => Err(e)
      case Ok((fd, f1)) =>
        match ProcessFaces(faces, index + 1, f1)
        case Err(e) => Err(e)
        case Ok((rest, f2)) => Ok(([fd] + rest, f2))
  }

  /** One face's bytes as `processCuboid` writes them: texture byte, then rotation and UVs when textured. */
  function FaceRecord(fc: FloatCodec, flags: Flags, index: nat, f: FaceData): seq<Byte>
    requires index < 6 && |f.uv| == 4
  {
    [f.tex] + (if f.tex != NO_TEXTURE then [f.rot] + PutNumbers(fc, flags, 6 + 4 * index, f.uv) else [])
  }

  /** Face `index` onward of a record. */
  function FaceBytes(fc: FloatCodec, flags: Flags, faces: seq<FaceData>, index: nat): seq<Byte>
    requires index + |faces| <= 6
    requires forall i :: 0 <= i < |faces| ==> |faces[i].uv| == 4
    decreases |faces|
  {
    if faces == [] then []
    else FaceRecord(fc, flags, index, faces[0]) + FaceBytes(fc, flags, faces[1..], index + 1)
  }

  /** Faces carrying geometry. */
  function Textured(faces: seq<FaceData>): (n: nat)
    ensures n <= |faces|
  {
    if faces == [] then 0 else TexturedOne(faces[0]) + Textured(faces[1..])
  }

  /** Whether a face carries geometry, as a count. */
  function TexturedOne(f: FaceData): nat {
    if f.tex != NO_TEXTURE then 1 else 0
  }

  /** An encoded cuboid: its inflated corners, processed faces, flags and bytes. */
  datatype Encoded = Encoded(from: Vector3, to: Vector3, faces: seq<FaceData>, flags: Flags, bytes: seq<Byte>)

  /** Number `k` of a record, in flag order: `from`, `to`, then four UVs per face. */
  function Slot(e: Encoded, k: nat): real
    requires k < 30 && |e.faces| == 6 && forall i :: 0 <= i < 6 ==> |e.faces[i].uv| == 4
  {
    if k < 3 then [e.from.x, e.from.y, e.from.z][k]
    else if k < 6 then [e.to.x, e.to.y, e.to.z][k - 3]
    else e.faces[(k - 6) / 4].uv[(k - 6) % 4]
  }

  /** The record `processCuboid` writes for a cuboid: flags, corners, then the faces. */
  function CuboidBytes(fc: FloatCodec, e: Encoded): seq<Byte>
    requires |e.faces| == 6 && forall i :: 0 <= i < 6 ==> |e.faces[i].uv| == 4
  {
    IntBytes(FlagsValue(e.flags))
    + PutNumbers(fc, e.flags, 0, [e.from.x, e.from.y, e.from.z, e.to.x, e.to.y, e.to.z])
    + FaceBytes(fc, e.flags, e.faces, 0)
  }

  /** `processCuboid`. */
  function ProcessCuboid(fc: FloatCodec, c: CuboidJson): (r: Result<(Encoded, Counts)>)
    ensures c.faces.None? ==> r == Err(NullPointer)
    ensures r.Ok? ==> |r.value.0.faces| == 6 && (forall i :: 0 <= i < 6 ==> |r.value.0.faces[i].uv| == 4)
    ensures r.Ok? ==> r.value.1 == Counts(4 * Textured(r.value.0.faces), 6 * Textured(r.value.0.faces), 1)
    ensures r.Ok? ==> r.value.0.bytes == CuboidBytes(fc, r.value.0)
  {
    var inflate := if c.inflate.Some? then c.inflate.value else 0.0;
    var from := c.from.Subtract(ONE3.Scale(inflate));
    var to := c.to.Add(ONE3.Scale(inflate));
    var f0 := MarkNonIntegral(NO_FLAGS, 0, [from.x, from.y, from.z]);
    var f1 := MarkNonIntegral(f0, 3, [to.x, to.y, to.z]);
    if c.faces.None? then Err(NullPointer)
    else
      match ProcessFaces(c.faces.value, 0, f1)
      case Err(e) => Err(e)
      case Ok(processed) =>
        var faces := processed.0;
        var flags := processed.1;
        var e := Encoded(from, to, faces, flags, []);
        var t := Textured(faces);
        Ok((e.(bytes := CuboidBytes(fc, e)), Counts(4 * t, 6 * t, 1)))
  }

  /**
   * The flag word marks exactly the non-whole numbers among the 30 slots,
   * and the two high bits stay clear.
   */
  predicate MarksNonIntegral(e: Encoded)
    requires |e.faces| == 6 && forall i :: 0 <= i < 6 ==> |e.faces[i].uv| == 4
  {
    (forall k :: 0 <= k < 30 ==> (Bit(e.flags, k) <==> !Integral(Slot(e, k))))
    && !Bit(e.flags, 30) && !Bit(e.flags, 31)
  }

  /** One face marks its own four UV slots and no other. */
  lemma FaceMarks(index: nat, face: Option<FaceJson>, flags: Flags, k: nat)
    requires index < 6 && k < 32 && ProcessFace(index, face, flags).Ok?
    ensures var fd := ProcessFace(index, face, flags).value.0;
      var f := ProcessFace(index, face, flags).value.1;
      (Bit(f, k) <==> Bit(flags, k) || (6 + 4 * index <= k < 10 + 4 * index && !Integral(fd.uv[k - 6 - 4 * index])))
  {
    var fd := ProcessFace(index, face, flags).value.0;
    if !face.value.texture.JsonNull? {
      MarkNonIntegralBits(flags, 6 + 4 * index, fd.uv, k);
    } else if 6 + 4 * index <= k < 10 + 4 * index {
      assert Integral(fd.uv[k - 6 - 4 * index]);
    }
  }

  /** The face at `index` comes first, then the faces after it, under the flags it leaves. */
  lemma ProcessFacesCons(faces: map<string, FaceJson>, index: nat, flags: Flags)
    requires index < 6 && ProcessFaces(faces, index, flags).Ok?
    ensures var p := ProcessFace(index, FaceAt(faces, index), flags);
      p.Ok? && ProcessFaces(faces, index + 1, p.value.1).Ok?
      && ProcessFaces(faces, index, flags).value.0 == [p.value.0] + ProcessFaces(faces, index + 1, p.value.1).value.0
      && ProcessFaces(faces, index, flags).value.1 == ProcessFaces(faces, index + 1, p.value.1).value.1
  {
  }

  /** Processing faces `index..5` leaves the slots below theirs, and the two high bits, alone. */
  lemma {:induction false} FacesKeep(faces: map<string, FaceJson>, index: nat, flags: Flags, k: nat)
    requires index <= 6 && k < 32 && (k < 6 + 4 * index || k >= 30)
    requires ProcessFaces(faces, index, flags).Ok?
    ensures Bit(ProcessFaces(faces, index, flags).value.1, k) <==> Bit(flags, k)
    decreases 6 - index
  {
    if index < 6 {
      var face := FaceAt(faces, index);
      ProcessFacesCons(faces, index, flags);
      var f1 := ProcessFace(index, face, flags).value.1;
      FaceMarks(index, face, flags, k);
      FacesKeep(faces, index + 1, f1, k);
    }
  }

  /** Processing faces `index..5` marks UV `j` of face `i` iff it is not whole. */
  lemma {:induction false} FacesMark(faces: map<string, FaceJson>, index: nat, flags: Flags, i: nat, j: nat, fs: seq<FaceData>, f: Flags)
    requires index <= i < 6 && j < 4
    requires ProcessFaces(faces, index, flags) == Ok((fs, f))
    ensures i - index < |fs| && |fs[i - index].uv| == 4
    ensures Bit(f, 6 + 4 * i + j) <==> Bit(flags, 6 + 4 * i + j) || !Integral(fs[i - index].uv[j])
    decreases 6 - index, 1
  {
    if i == index {
      FirstFaceMark(faces, index, flags, j);
    } else {
      LaterFaceMark(faces, index, flags, i, j, fs, f);
    }
  }

  /** A face after the first: the first face leaves its slot alone, and the rest mark it. */
  lemma {:induction false} LaterFaceMark(faces: map<string, FaceJson>, index: nat, flags: Flags, i: nat, j: nat, fs: seq<FaceData>, f: Flags)
    requires index < i < 6 && j < 4
    requires ProcessFaces(faces, index, flags) == Ok((fs, f))
    ensures i - index < |fs| && |fs[i - index].uv| == 4
    ensures Bit(f, 6 + 4 * i + j) <==> Bit(flags, 6 + 4 * i + j) || !Integral(fs[i - index].uv[j])
    decreases 6 - index, 0
  {
    var face := FaceAt(faces, index);
    ProcessFacesCons(faces, index, flags);
    var f1 := ProcessFace(index, face, flags).value.1;
    var tail := ProcessFaces(faces, index + 1, f1).value;
    var k := 6 + 4 * i + j;
    FaceMarks(index, face, flags, k);
    FacesMark(faces, index + 1, f1, i, j, tail.0, tail.1);
    assert fs[i - index] == tail.0[i - (index + 1)];
  }

  /** The first face processed marks its own UV `j` iff it is not whole; later faces leave it alone. */
  lemma FirstFaceMark(faces: map<string, FaceJson>, index: nat, flags: Flags, j: nat)
    requires index < 6 && j < 4
    requires ProcessFaces(faces, index, flags).Ok?
    ensures var fs := ProcessFaces(faces, index, flags).value.0;
      var f := ProcessFaces(faces, index, flags).value.1;
      Bit(f, 6 + 4 * index + j) <==> Bit(flags, 6 + 4 * index + j) || !Integral(fs[0].uv[j])
  {
    var face := FaceAt(faces, index);
    ProcessFacesCons(faces, index, flags);
    var f1 := ProcessFace(index, face, flags).value.1;
    FaceMarks(index, face, flags, 6 + 4 * index + j);
    FacesKeep(faces, index + 1, f1, 6 + 4 * index + j);
  }

  /** The flags of `processCuboid` and `processFace`: flag `k` is set iff number `k` of the record is not whole. */
  lemma CuboidFlags(fc: FloatCodec, c: CuboidJson)
    requires ProcessCuboid(fc, c).Ok?
    ensures MarksNonIntegral(ProcessCuboid(fc, c).value.0)
  {
    var e := ProcessCuboid(fc, c).value.0;
    forall k | 0 <= k < 32
      ensures k < 30 ==> (Bit(e.flags, k) <==> !Integral(Slot(e, k)))
      ensures k >= 30 ==> !Bit(e.flags, k)
    {
      CuboidFlagBit(fc, c, k);
    }
  }

  /** The corner flags a cuboid's faces start from, and the faces' result. */
  lemma CuboidSteps(fc: FloatCodec, c: CuboidJson) returns (f1: Flags)
    requires ProcessCuboid(fc, c).Ok?
    ensures var e := ProcessCuboid(fc, c).value.0;
      f1 == MarkNonIntegral(MarkNonIntegral(NO_FLAGS, 0, [e.from.x, e.from.y, e.from.z]), 3, [e.to.x, e.to.y, e.to.z])
      && c.faces.Some? && ProcessFaces(c.faces.value, 0, f1).Ok?
      && ProcessFaces(c.faces.value, 0, f1).value.0 == e.faces && ProcessFaces(c.faces.value, 0, f1).value.1 == e.flags
  {
    var e := ProcessCuboid(fc, c).value.0;
    f1 := MarkNonIntegral(MarkNonIntegral(NO_FLAGS, 0, [e.from.x, e.from.y, e.from.z]), 3, [e.to.x, e.to.y, e.to.z]);
  }

  /** Bit `k` of one cuboid's flag word. */
  lemma CuboidFlagBit(fc: FloatCodec, c: CuboidJson, k: nat)
    requires ProcessCuboid(fc, c).Ok? && k < 32
    ensures var e := ProcessCuboid(fc, c).value.0;
      (k < 30 ==> (Bit(e.flags, k) <==> !Integral(Slot(e, k)))) && (k >= 30 ==> !Bit(e.flags, k))
  {
    var e := ProcessCuboid(fc, c).value.0;
    var f1 := CuboidSteps(fc, c);
    var f0 := MarkNonIntegral(NO_FLAGS, 0, [e.from.x, e.from.y, e.from.z]);
    MarkNonIntegralBits(NO_FLAGS, 0, [e.from.x, e.from.y, e.from.z], k);
    MarkNonIntegralBits(f0, 3, [e.to.x, e.to.y, e.to.z], k);
    if 6 <= k < 30 {
      var i, j := FaceSlot(e, k);
      FacesMark(c.faces.value, 0, f1, i, j, e.faces, e.flags);
    } else {
      FacesKeep(c.faces.value, 0, f1, k);
    }
  }

  /** Slot `k` past the corners is UV number `j` of face `i`, for `k == 6 + 4 * i + j`. */
  lemma FaceSlot(e: Encoded, k: nat) returns (i: nat, j: nat)
    requires 6 <= k < 30 && |e.faces| == 6 && forall i :: 0 <= i < 6 ==> |e.faces[i].uv| == 4
    ensures i < 6 && j < 4 && k == 6 + 4 * i + j && Slot(e, k) == e.faces[i].uv[j]
  {
    i, j := 0, k - 6;
    while j >= 4
      invariant 0 <= j && k == 6 + 4 * i + j
      decreases j
    {
      i, j := i + 1, j - 4;
    }
    DivUnique(k - 6, 4, i, j);
  }

  /** `collectElementsByUUID`; a later duplicate uuid replaces an earlier one. */
  function CollectElementsByUuid(elements: seq<ElementJson>): (m: map<string, (PartJson, CuboidJson)>)
    ensures forall u :: u in m <==>
      exists i :: 0 <= i < |elements| && elements[i].ElementObject? && elements[i].uuid == Some(u)
  {
    if elements == [] then map[]
    else
      var init := elements[..|elements| - 1];
      var m := CollectElementsByUuid(init);
      var e := elements[|elements| - 1];
      if e.ElementObject? && e.uuid.Some? then m[e.uuid.value := (e.part, e.cuboid)] else m
  }

  /** The last element object carrying a uuid is the one kept for it. */
  lemma LastElementWins(elements: seq<ElementJson>, i: int)
    requires 0 <= i < |elements| && elements[i].ElementObject? && elements[i].uuid.Some?
    requires forall j :: i < j < |elements| && elements[j].ElementObject? ==> elements[j].uuid != elements[i].uuid
    ensures CollectElementsByUuid(elements)[elements[i].uuid.value] == (elements[i].part, elements[i].cuboid)
    decreases |elements|
  {
    if i < |elements| - 1 {
      var init := elements[..|elements| - 1];
      assert init[i] == elements[i];
      LastElementWins(init, i);
    }
  }

  /** `vector3ToNbt`: three floats. */
  function VectorNbt(fc: FloatCodec, v: Vector3): seq<real> {
    [AsFloat(fc, v.x), AsFloat(fc, v.y), AsFloat(fc, v.z)]
  }

  /** The part compound of one outliner object, before its children are added. */
  function PartOf(fc: FloatCodec, p: PartJson, name: string, children: Option<seq<PartNbt>>): PartNbt {
    PartNbt(Some(name),
      if p.origin.Some? then Some(VectorNbt(fc, p.origin.value)) else None,
      if p.rotation.Some? then Some(VectorNbt(fc, p.rotation.value)) else None,
      p.visibility,
      children.Some?,
      if children.Some? then children.value else [])
  }

  /** What `processParts` produces: the part compounds, the cuboid records in order, and the counts. */
  datatype Processed = Processed(parts: seq<PartNbt>, records: seq<Encoded>, counts: Counts)

  /**
   * `processParts`, depth first. A uuid without an element
   * and an object without a name fail on the null they yield.
   */
  function ProcessParts(fc: FloatCodec, elements: map<string, (PartJson, CuboidJson)>, parts: seq<Outline>): (r: Result<Processed>)
    decreases parts, 1
    ensures r.Ok? ==> |r.value.parts| == |parts|
  {
    if parts == [] then Ok(Processed([], [], NO_COUNTS))
    else
      match ProcessPart(fc, elements, parts[0])
      case Err(e) => Err(e)
      case Ok(first) =>
        match ProcessParts(fc, elements, parts[1..])
        case Err(e) => Err(e)
        case Ok(rest) => Ok(Processed(first.parts + rest.parts, first.records + rest.records,
                                      AddCounts(first.counts, rest.counts)))
  }

  function ProcessPart(fc: FloatCodec, elements: map<string, (PartJson, CuboidJson)>, o: Outline): (r: Result<Processed>)
    decreases o, 0
    ensures r.Ok? ==> |r.value.parts| == 1
    ensures o.Ref? && o.uuid !in elements ==> r == Err(NullPointer)
  {
    match o
    case Ref(u) =>
      if u !in elements then Err(NullPointer)
      else
        var p := elements[u].0;
        var c := elements[u].1;
        if p.name.None? then Err(NullPointer)
        else
          (match ProcessCuboid(fc, c)
           case Err(e) => Err(e)
           case Ok((rec, n)) => Ok(Processed([PartOf(fc, p, p.name.value, None)], [rec], n)))
    case Group(p, hasChildren, children) =>
      if p.name.None? then Err(NullPointer)
      else if !hasChildren then Ok(Processed([PartOf(fc, p, p.name.value, None)], [], NO_COUNTS))
      else
        match ProcessParts(fc, elements, children)
        case Err(e) => Err(e)
        case Ok(sub) => Ok(Processed([PartOf(fc, p, p.name.value, Some(sub.parts))], sub.records, sub.counts))
  }

  /** The model compound `parse` returns. */
  datatype ModelNbt = ModelNbt(version: string, vertexCount: int, indexCount: int, numCuboids: int,
                               texWidth: int, texHeight: int, vertexData: seq<Byte>, root: PartNbt)

  /** The bytes of a run of records, in order. */
  function Concat(records: seq<Encoded>): seq<Byte> {
    if records == [] then [] else records[0].bytes + Concat(records[1..])
  }

  /** `parse`. The outliner hangs under a group named "root". */
  function Parse(fc: FloatCodec, model: BBModel): (r: Result<ModelNbt>)
    ensures r.Ok? ==> r.value.version == VERSION && r.value.root.name == Some("root")
    ensures r.Ok? ==> r.value.root.hasChildren && r.value.root.pivot.None? && r.value.root.rotation.None?
    ensures r.Ok? ==> r.value.root.visibility.None?
    ensures r.Ok? ==> r.value.texWidth == model.width && r.value.texHeight == model.height
  {
    var elements := CollectElementsByUuid(model.elements);
    match ProcessParts(fc, elements, model.outliner)
    case Err(e) => Err(e)
    case Ok(p) =>
      var root := PartNbt(Some("root"), None, None, None, true, p.parts);
      Ok(ModelNbt(VERSION, p.counts.vertices, p.counts.indices, p.counts.cuboids,
                  model.width, model.height, Concat(p.records), root))
  }

  /** The leaves of a part compound tree, depth first: compounds without a `children` key. */
  function NbtLeaves(n: PartNbt): seq<PartNbt>
    decreases n, 1
  {
    if !n.hasChildren then [n] else NbtLeavesAll(n.children)
  }

  function NbtLeavesAll(ns: seq<PartNbt>): seq<PartNbt>
    decreases ns, 0
  {
    if ns == [] then [] else NbtLeaves(ns[0]) + NbtLeavesAll(ns[1..])
  }

  /** Outliners whose every group has a `children` array, as Blockbench writes them. */
  predicate GroupsHaveChildren(o: Outline) {
    match o
    case Ref(_) => true
    case Group(_, hasChildren, children) => hasChildren && forall i :: 0 <= i < |children| ==> GroupsHaveChildren(children[i])
  }

  lemma {:induction false} NbtLeavesAllAppend(a: seq<PartNbt>, b: seq<PartNbt>)
    ensures NbtLeavesAll(a + b) == NbtLeavesAll(a) + NbtLeavesAll(b)
    decreases |a|
  {
    if a == [] {
      assert a + b == b;
    } else {
      assert (a + b)[0] == a[0] && (a + b)[1..] == a[1..] + b;
      NbtLeavesAllAppend(a[1..], b);
    }
  }

  /**
   * Cuboid records and leaf compounds line up: with every group carrying a
   * `children` key, record `i` belongs to the `i`-th leaf in depth-first order.
   */
  lemma {:induction false} RecordsAreLeaves(fc: FloatCodec, elements: map<string, (PartJson, CuboidJson)>, parts: seq<Outline>)
    requires forall i :: 0 <= i < |parts| ==> GroupsHaveChildren(parts[i])
    requires ProcessParts(fc, elements, parts).Ok?
    ensures var p := ProcessParts(fc, elements, parts).value;
      |NbtLeavesAll(p.parts)| == |p.records| == p.counts.cuboids
    decreases parts, 1
  {
    if parts != [] {
      RecordIsLeaf(fc, elements, parts[0]);
      RecordsAreLeaves(fc, elements, parts[1..]);
      var first := ProcessPart(fc, elements, parts[0]).value;
      var rest := ProcessParts(fc, elements, parts[1..]).value;
      NbtLeavesAllAppend(first.parts, rest.parts);
    }
  }

  lemma {:induction false} RecordIsLeaf(fc: FloatCodec, elements: map<string, (PartJson, CuboidJson)>, o: Outline)
    requires GroupsHaveChildren(o)
    requires ProcessPart(fc, elements, o).Ok?
    ensures var p := ProcessPart(fc, elements, o).value;
      |NbtLeavesAll(p.parts)| == |p.records| == p.counts.cuboids
    decreases o, 0
  {
    var p := ProcessPart(fc, elements, o).value;
    match o
    case Ref(u) =>
      assert NbtLeavesAll(p.parts) == NbtLeaves(p.parts[0]);
    case Group(_, _, children) =>
      RecordsAreLeaves(fc, elements, children);
      assert NbtLeavesAll(p.parts) == NbtLeaves(p.parts[0]) + NbtLeavesAll([]);
  }

  /** A record as `processCuboid` leaves it: six faces of four UVs, bytes in the record layout. */
  predicate WellFormed(fc: FloatCodec, e: Encoded) {
    |e.faces| == 6 && (forall i :: 0 <= i < 6 ==> |e.faces[i].uv| == 4) && e.bytes == CuboidBytes(fc, e)
  }

  /** The vertices, indices and cuboids a run of records accounts for. */
  function Tally(records: seq<Encoded>): (c: Counts)
    ensures c.cuboids == |records| && c.vertices >= 0 && c.indices >= 0
  {
    if records == [] then NO_COUNTS
    else
      var t := Textured(records[0].faces);
      AddCounts(Counts(4 * t, 6 * t, 1), Tally(records[1..]))
  }

  lemma {:induction false} TallyAppend(a: seq<Encoded>, b: seq<Encoded>)
    ensures Tally(a + b) == AddCounts(Tally(a), Tally(b))
    decreases |a|
  {
    if a == [] {
      assert a + b == b;
    } else {
      assert (a + b)[0] == a[0] && (a + b)[1..] == a[1..] + b;
      TallyAppend(a[1..], b);
    }
  }

  /**
   * The counts `processParts` accumulates are those of the records it
   * emits, and every record is well formed.
   */
  lemma {:induction false} PartsTally(fc: FloatCodec, elements: map<string, (PartJson, CuboidJson)>, parts: seq<Outline>, p: Processed)
    requires ProcessParts(fc, elements, parts) == Ok(p)
    ensures p.counts == Tally(p.records) && forall i :: 0 <= i < |p.records| ==> WellFormed(fc, p.records[i])
    decreases parts, 1
  {
    if parts != [] {
      var first := ProcessPart(fc, elements, parts[0]).value;
      var rest := ProcessParts(fc, elements, parts[1..]).value;
      PartTally(fc, elements, parts[0], first);
      PartsTally(fc, elements, parts[1..], rest);
      TallyAppend(first.records, rest.records);
      forall i | 0 <= i < |p.records| ensures WellFormed(fc, p.records[i]) {
        if i >= |first.records| { assert p.records[i] == rest.records[i - |first.records|]; }
      }
    }
  }

  lemma {:induction false} PartTally(fc: FloatCodec, elements: map<string, (PartJson, CuboidJson)>, o: Outline, p: Processed)
    requires ProcessPart(fc, elements, o) == Ok(p)
    ensures p.counts == Tally(p.records) && forall i :: 0 <= i < |p.records| ==> WellFormed(fc, p.records[i])
    decreases o, 0
  {
    match o
    case Ref(u) =>
      var rec := ProcessCuboid(fc, elements[u].1).value;
      assert p.records == [rec.0] && p.counts == rec.1;
      SingleTally(rec.0);
    case Group(_, hasChildren, children) =>
      if hasChildren { PartsTally(fc, elements, children, ProcessParts(fc, elements, children).value); }
  }

  /** One record accounts for one cuboid and its textured faces. */
  lemma SingleTally(e: Encoded)
    ensures Tally([e]) == Counts(4 * Textured(e.faces), 6 * Textured(e.faces), 1)
  {
    assert [e][1..] == [];
  }
}
