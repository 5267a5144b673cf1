# Figua model

Figua is a Minecraft (Fabric) mod that renders custom avatars on entities.
An avatar is a Blockbench model plus an optional Lua script. This project is
a Dafny model of Figua's core logic:

- **Model-part tree** (`ModelPart`, `PartDeserializer`, `PreRender`).
  Parts are built from the model record, with texture indices for the
  geometry leaves and a Lua index for every part. Each part carries the
  range of texture indices below it. Every frame, the pre-render pass
  recomputes stale transforms, accumulates world matrices and uploads each
  dirty subtree once.
- **Transform texture** (`TransformTex`, `MathUtils`). Its power-of-two
  sizing, its identity pre-fill, and how a run of matrices maps onto
  64-matrix texture rows.
- **Value types** (`Vectors`, `Mat3`, `Mat4`). These are over the reals,
  and keep the source's reversed convention: `a.multiply(b)` is the product
  `b·a`.
- **Cuboid binary codec** (`ByteCodec`, `BBModelSerializer`,
  `VertexDataDeserializer`). The Blockbench serializer packs each cuboid
  into a byte record. The deserializer reads it back into vertex and index
  data.
- **Vertex layout** (`VertexLayout`, `RenderUtils`). The attribute offsets
  and strides, and the two lazily filled caches.
- **Script surface** (`LuaValues`, `Vector3Script`, `VectorsApi`,
  `EventsApi`, `PartTables`, `LuaManager`). The `vectors` constructors, the
  Vector3 metamethods, the `events` channels, the Lua tables that project
  the part tree, and how a sandboxed Lua state is assembled. The Lua
  virtual machine itself is abstract.
- **Avatar management** (`AvatarStates`, `Avatars`, `Cards`, `Providers`).
  An avatar state is one avatar instantiated on one entity. The manager
  answers an entity's states from its card deck and remembers them. The
  provider chain is a chain of responsibility with a memory cache.

Everything is immutable data and pure functions. Where the source mutates
shared objects (caches, avatars shared by reference), the model passes that
state in and returns the new state together with a trace of uploads, calls
or events. The static build state of `FiguaModelPart` is a `Builder` value:
the next texture index and `currentElements`, the parts constructed since
the last reset. A build that throws before its reset leaves its parts in
`currentElements`, so the next tree's element array starts with those stale
parts and its root comes after them. The element array is derived from the
tree (`Tree.elements`), because Java shares the very part objects between
the tree and the array: a part rotated through a script table is the part
the next frame draws. Where the code and its comments
disagree, the model follows the code and states the intended behaviour
separately (see Findings).

## Model

| member | source | states |
|---|---|---|
| Vectors.Trunc | src/main/java/net/fabricmc/example/math/Vector3.java:46-48 | the quotient Java's `%` truncates to: at most q and within 1 of it for q >= 0, at least q and within 1 of it below 0 |
| Vectors.FMod | src/main/java/net/fabricmc/example/math/Vector3.java:46-48 | Java's double remainder: smaller than the divisor in magnitude, the sign of the dividend, and the dividend minus a whole multiple of the divisor |
| Vectors.Vector2.Subtract | src/main/java/net/fabricmc/example/math/Vector2.java:27-29 | adding the subtrahend back restores the vector |
| Vectors.Vector2.Divide | src/main/java/net/fabricmc/example/math/Vector2.java:35-37 | for nonzero components, multiplying the quotient back by the divisor restores the vector |
| Vectors.Vector2.Scale | src/main/java/net/fabricmc/example/math/Vector2.java:39-41 | uniform scaling is the two-factor scale with equal factors, i.e. the product with (f, f) |
| Vectors.Vector2.ScaleEach | src/main/java/net/fabricmc/example/math/Vector2.java:43-45 | per-axis scaling is the componentwise product with (fx, fy) |
| Vectors.Vector2.Dot | src/main/java/net/fabricmc/example/math/Vector2.java:47-49 | a vector's dot product with itself is never negative |
| Vectors.Vector2.LengthSquared | src/main/java/net/fabricmc/example/math/Vector2.java:51-53 | the squared length is the vector's dot product with itself |
| Vectors.Vector2.ToRad | src/main/java/net/fabricmc/example/math/Vector2.java:63-65 | converting to radians and back to degrees restores the vector |
| Vectors.Vector2Laws | src/main/java/net/fabricmc/example/math/Vector2.java:23-49 | add and subtract undo each other, ZERO is a unit for add, dot is symmetric, X and Y are orthogonal |
| Vectors.Vector3.Subtract | src/main/java/net/fabricmc/example/math/Vector3.java:34-36 | adding the subtrahend back restores the vector |
| Vectors.Vector3.Divide | src/main/java/net/fabricmc/example/math/Vector3.java:42-44 | for nonzero components, multiplying the quotient back by the divisor restores the vector |
| Vectors.Vector3.Mod | src/main/java/net/fabricmc/example/math/Vector3.java:46-48 | for nonzero components each remainder is smaller in magnitude than its divisor |
| Vectors.Vector3.Scale | src/main/java/net/fabricmc/example/math/Vector3.java:54-56 | uniform scaling is the componentwise product with (f, f, f) |
| Vectors.Vector3.ScaleEach | src/main/java/net/fabricmc/example/math/Vector3.java:58-60 | per-axis scaling is the componentwise product with (fx, fy, fz) |
| Vectors.Vector3.Dot | src/main/java/net/fabricmc/example/math/Vector3.java:62-64 | a vector's dot product with itself is never negative |
| Vectors.Vector3.Cross | src/main/java/net/fabricmc/example/math/Vector3.java:66-72 | the cross product is orthogonal to both operands |
| Vectors.Vector3.LengthSquared | src/main/java/net/fabricmc/example/math/Vector3.java:74-76 | the squared length is the vector's dot product with itself |
| Vectors.Vector3Laws | src/main/java/net/fabricmc/example/math/Vector3.java:30-92 | add and subtract undo each other, cross is antisymmetric, dot is symmetric, toRad and toDeg are inverse |
| Vectors.Vector4.Subtract | src/main/java/net/fabricmc/example/math/Vector4.java:33-35 | adding the subtrahend back restores the vector |
| Vectors.Vector4.Divide | src/main/java/net/fabricmc/example/math/Vector4.java:41-43 | for nonzero components, multiplying the quotient back by the divisor restores the vector |
| Vectors.Vector4.Scale | src/main/java/net/fabricmc/example/math/Vector4.java:45-47 | uniform scaling is the componentwise product with (f, f, f, f) |
| Vectors.Vector4.ScaleEach | src/main/java/net/fabricmc/example/math/Vector4.java:49-51 | per-axis scaling is the componentwise product with the four factors |
| Vectors.Vector4.Dot | src/main/java/net/fabricmc/example/math/Vector4.java:53-55 | a vector's dot product with itself is never negative |
| Vectors.Vector4.LengthSquared | src/main/java/net/fabricmc/example/math/Vector4.java:57-59 | the squared length is the vector's dot product with itself |
| Vectors.Vector4Laws | src/main/java/net/fabricmc/example/math/Vector4.java:29-55 | add and subtract undo each other, ZERO is a unit for add, dot is symmetric |
| Mat3.Matrix3.Multiply | src/main/java/net/fabricmc/example/math/Matrix3.java:38-52 | `a.multiply(b)` is the textbook product b·a, entry by entry |
| Mat3.Scale | src/main/java/net/fabricmc/example/math/Matrix3.java:57-59 | the diagonal holds x, y, z and every other entry is 0 |
| Mat3.FromColumnMajor | src/main/java/net/fabricmc/example/math/Matrix3.java:102-111 | entry (i, j) is float 3(j-1)+(i-1) of the buffer |
| Mat3.ToColumnMajor | src/main/java/net/fabricmc/example/math/Matrix3.java:116-125 | nine floats, entry (i, j) at 3(j-1)+(i-1), each through the float cast |
| Mat3.ColumnMajorRoundTrip | src/main/java/net/fabricmc/example/math/Matrix3.java:102-125 | reading back what was written (without float rounding) gives the matrix |
| Mat3.IdentityIsUnit | src/main/java/net/fabricmc/example/math/Matrix3.java:38-52 | IDENTITY is a unit for multiply on both sides |
| Mat3.ScaleComposes | src/main/java/net/fabricmc/example/math/Matrix3.java:57-59 | scales compose by multiplying factors; the unit scale is IDENTITY |
| Mat3.RotationsAtZeroAngle | src/main/java/net/fabricmc/example/math/Matrix3.java:66-92 | every rotation by angle 0 is IDENTITY |
| Mat3.RotationsAreInvertible | src/main/java/net/fabricmc/example/math/Matrix3.java:66-92 | with sin² + cos² = 1, rotating by -angle undoes rotating by angle, about each axis |
| Mat4.MultiplyIsReversedProduct | src/main/java/net/fabricmc/example/math/Matrix4.java:51-73 | `a.multiply(b)` is the textbook product b·a |
| Mat4.Embed | src/main/java/net/fabricmc/example/math/Matrix4.java:32-39 | the 3x3 matrix in the upper left, zeros in the last row and column except 1 in the corner |
| Mat4.EmbedMultiply | src/main/java/net/fabricmc/example/math/Matrix4.java:32-39 | embedding commutes with multiplication |
| Mat4.UploadToBuffer | src/main/java/net/fabricmc/example/math/Matrix4.java:80-86 | sixteen floats, entry (i, j) at 4(j-1)+(i-1), each through the float cast |
| Mat4.Scale | src/main/java/net/fabricmc/example/math/Matrix4.java:91-93 | diagonal x, y, z, 1 and zeros elsewhere |
| Mat4.ScaleComposes | src/main/java/net/fabricmc/example/math/Matrix4.java:91-97 | scales compose componentwise; scale by ONE is IDENTITY |
| Mat4.Translate | src/main/java/net/fabricmc/example/math/Matrix4.java:102-104 | the offset in the fourth column over the identity's first three columns |
| Mat4.TranslateComposes | src/main/java/net/fabricmc/example/math/Matrix4.java:102-108 | translations compose by adding offsets |
| Mat4.IdentityIsUnit | src/main/java/net/fabricmc/example/math/Matrix4.java:51-73 | IDENTITY is a unit for multiply on both sides |
| Mat4.RotationsAtZeroAngle | src/main/java/net/fabricmc/example/math/Matrix4.java:123-149 | every rotation by angle 0 is IDENTITY |
| Mat4.RotationsEmbed | src/main/java/net/fabricmc/example/math/Matrix4.java:123-149 | each 4x4 rotation (and scale) is the embedding of the 3x3 one |
| Mat4.TransformIsRowDot | src/main/java/net/fabricmc/example/math/Vector4.java:20-27 | each component of `v.multiply(m)` is the matching row of m against v |
| Mat4.TransformByIdentity | src/main/java/net/fabricmc/example/math/Vector4.java:20-27 | IDENTITY leaves a vector alone |
| Mat4.TransformByTranslate | src/main/java/net/fabricmc/example/math/Vector4.java:20-27 | a point (w = 1) moves by the translation's offset |
| Mat4.TransformComposes | src/main/java/net/fabricmc/example/math/Vector4.java:20-27 | `v.multiply(a.multiply(b))` applies a first, then b |
| MathUtils.Wrap32 | src/main/java/net/fabricmc/example/math/MathUtils.java:55 | the result is a Java int, equal to the input when that already is one, and congruent to it mod 2^32 |
| MathUtils.Climb | src/main/java/net/fabricmc/example/math/MathUtils.java:54-55 | the loop from r ends at a power of two at least x and r, either r itself or one whose half is below x |
| MathUtils.NextPowerOfTwo | src/main/java/net/fabricmc/example/math/MathUtils.java:52-57 | for x up to 2^30: a power of two at least x, 1 for x <= 1, and less than 2x otherwise |
| MathUtils.NextPowerOfTwoIsLeast | src/main/java/net/fabricmc/example/math/MathUtils.java:52-57 | no power of two at least x is smaller than the result |
| MathUtils.NextPowerOfTwoFixesPowers | src/main/java/net/fabricmc/example/math/MathUtils.java:52-57 | a power of two is its own next power of two |
| MathUtils.NextPowerOfTwoMonotone | src/main/java/net/fabricmc/example/math/MathUtils.java:52-57 | the rounding is monotone |
| MathUtils.LoopValuesLow | src/main/java/net/fabricmc/example/math/MathUtils.java:54-55 | for up to 30 passes the shifted int is 2^n, at most 2^30 |
| MathUtils.LoopValuesHigh | src/main/java/net/fabricmc/example/math/MathUtils.java:54-55 | the 31st shift wraps to Integer.MIN_VALUE and every later one gives 0 |
| MathUtils.LoopNeverExits | src/main/java/net/fabricmc/example/math/MathUtils.java:52-57 | for x above 2^30 the guard r < x holds after every pass: the loop never exits |
| MathUtils.WorldPartInverse | src/main/java/net/fabricmc/example/math/MathUtils.java:65-76 | worldToPart and partToWorld are inverse |
| TransformTex.DefaultData | src/main/java/net/fabricmc/example/rendering/textures/TransformTexture.java:101-107 | numFloats floats, float i being 1 exactly when i mod 16 is 0, 5, 10 or 15 |
| TransformTex.DefaultDataIsIdentities | src/main/java/net/fabricmc/example/rendering/textures/TransformTexture.java:98-107 | every 16-float block of the initial data is the identity matrix in upload order |
| TransformTex.Create | src/main/java/net/fabricmc/example/rendering/textures/TransformTexture.java:25-52 | fails with the "over 16384 model parts" IllegalStateException exactly when the rounded pixel count exceeds 256·256; otherwise the pixel count is nextPowerOfTwo of the wrapped `n * 4` |
| TransformTex.CreateFailsIffTooMany | src/main/java/net/fabricmc/example/rendering/textures/TransformTexture.java:28-31 | for counts whose `n * 4` does not overflow, construction fails exactly above 16384 matrices |
| TransformTex.CreateGeometry | src/main/java/net/fabricmc/example/rendering/textures/TransformTexture.java:28-44 | width·height is the pixel count, which covers 4n; the width is at most 256, one row below 256 pixels and full rows from there; the copy buffer holds one row and the data four floats per pixel |
| TransformTex.Placement | src/main/java/net/fabricmc/example/rendering/textures/TransformTexture.java:88-89 | matrix k starts at a pixel column divisible by 4, at linear pixel 4k |
| TransformTex.PlacementInside | src/main/java/net/fabricmc/example/rendering/textures/TransformTexture.java:25-52 | every matrix the texture has room for lies entirely inside it |
| TransformTex.RowEnd | src/main/java/net/fabricmc/example/rendering/textures/TransformTexture.java:78 | the last matrix of k's row: the next row starts right after it |
| TransformTex.AsWrittenOneRow | src/main/java/net/fabricmc/example/rendering/textures/TransformTexture.java:70-96 | within one row the loop as written does one sub-upload of the whole range and exits |
| TransformTex.AsWrittenNeverExits | src/main/java/net/fabricmc/example/rendering/textures/TransformTexture.java:77-92 | a range that crosses a row: the loop as written never exits, however many passes run |
| TransformTex.StuckForever | src/main/java/net/fabricmc/example/rendering/textures/TransformTexture.java:77-92 | once a pass leaves `startCopy` unchanged, no number of further passes exits |
| TransformTex.ReturnsIffExits | src/main/java/net/fabricmc/example/rendering/textures/TransformTexture.java:70-96 | `uploadData` as written returns exactly when the range ends within the first index's row: then one pass exits, otherwise no number of passes does |
| TransformTex.Uploads | src/main/java/net/fabricmc/example/rendering/textures/TransformTexture.java:70-96 | the corrected loop: every sub-upload copies 1 to 64 matrices within one row, and together they copy exactly the range |
| TransformTex.UploadsContiguous | src/main/java/net/fabricmc/example/rendering/textures/TransformTexture.java:83-91 | consecutive corrected sub-uploads continue each other in the buffer and in the texture |
| TransformTex.UploadsOneRow | src/main/java/net/fabricmc/example/rendering/textures/TransformTexture.java:70-96 | the corrected loop agrees with the one as written whenever that one exits |
| TransformTex.UploadsFitCopyBuffer | src/main/java/net/fabricmc/example/rendering/textures/TransformTexture.java:81-85 | every corrected sub-upload fits the copy buffer of a texture that holds the range |
| TransformTex.UploadsCountBounded | src/main/java/net/fabricmc/example/rendering/textures/TransformTexture.java:79 | no sub-upload copies more matrices than remain |
| ModelPart.SetRot | src/main/java/net/fabricmc/example/avatars/FiguaModelPart.java:223-227 | the stored rotation converted back to degrees is the argument; both update flags are raised; no other field changes |
| ModelPart.SetPivot | src/main/java/net/fabricmc/example/avatars/FiguaModelPart.java:234-238 | the stored pivot converted back to part units is the argument; both update flags are raised; no other field changes |
| ModelPart.SetTransform | src/main/java/net/fabricmc/example/avatars/FiguaModelPart.java:193-199 | as written: the matrix is stored, rotation and translation become zero and scale one, the texture flag is raised, and a pending transform update is left pending (so it will overwrite the matrix) |
| ModelPart.SetTransformIntended | src/main/java/net/fabricmc/example/avatars/FiguaModelPart.java:187-199 | the intended setter is the as-written one with the pending transform update cleared |
| ModelPart.NewPart | src/main/java/net/fabricmc/example/avatars/FiguaModelPart.java:91-120 | the constructor: a leaf takes the next texture index as a one-index range, a group takes the empty range 999999..-999999; every part gets the current element count as its Lua index and is appended to `currentElements` as constructed; rotation and pivot are stored converted; an invisible part carries the zero-scale matrix; both update flags end up raised |
| ModelPart.NewPartIntended | src/main/java/net/fabricmc/example/avatars/FiguaModelPart.java:91-120 | with the intended setter the build state advances as with the source constructor, and an invisible part has no transform update pending while a visible one does |
| ModelPart.NewPartIntendedDiffers | src/main/java/net/fabricmc/example/avatars/FiguaModelPart.java:91-120 | the as-written and intended constructors agree on everything except the pending transform flag |
| ModelPart.AddChild | src/main/java/net/fabricmc/example/avatars/FiguaModelPart.java:122-136 | adding to a leaf fails with a null-pointer error and only then; otherwise the child is appended and the range widens to the smaller first and larger last of parent and child, nothing else changing |
| ModelPart.AddChildAt | src/main/java/net/fabricmc/example/avatars/FiguaModelPart.java:122-136 | adding below a nested group appends one child at that group and every ancestor's range widens to cover the child's, other fields unchanged |
| ModelPart.AddChildAtRange | src/main/java/net/fabricmc/example/avatars/FiguaModelPart.java:128-136 | under the range invariant the root's new range is exactly min/max of its old range and the child's |
| ModelPart.AddChildAtKeepsRanges | src/main/java/net/fabricmc/example/avatars/FiguaModelPart.java:122-136 | adding a child anywhere preserves the invariant that every group's range folds its children's ranges |
| ModelPart.MinFirstBelow | src/main/java/net/fabricmc/example/avatars/FiguaModelPart.java:130-131 | the folded first index is at most every child's first index |
| ModelPart.MaxLastAbove | src/main/java/net/fabricmc/example/avatars/FiguaModelPart.java:132-133 | the folded last index is at least every child's last index |
| ModelPart.MinFirstReplace | src/main/java/net/fabricmc/example/avatars/FiguaModelPart.java:128-136 | replacing a child by one with a smaller first index lowers the fold exactly to min of the two |
| ModelPart.MaxLastReplace | src/main/java/net/fabricmc/example/avatars/FiguaModelPart.java:128-136 | replacing a child by one with a larger last index raises the fold exactly to max of the two |
| ModelPart.LeafIndicesAllMember | src/main/java/net/fabricmc/example/avatars/FiguaModelPart.java:122-136 | an index is a leaf index of a child list iff it is a leaf index below one of the children |
| ModelPart.MinFirstPicks | src/main/java/net/fabricmc/example/avatars/FiguaModelPart.java:128-136 | the folded first index is either the empty-range bound or some child's first index |
| ModelPart.MaxLastPicks | src/main/java/net/fabricmc/example/avatars/FiguaModelPart.java:128-136 | the folded last index is either the empty-range bound or some child's last index |
| ModelPart.RangeIsLeafSpan | src/main/java/net/fabricmc/example/avatars/FiguaModelPart.java:93-136 | under the range invariant, a part's first..last is exactly the span of the leaf texture indices below it: both ends are leaf indices and all leaves lie between; with no leaves the range stays empty |
| ModelPart.ChildSpans | src/main/java/net/fabricmc/example/avatars/FiguaModelPart.java:128-136 | the group step: if every child spans its leaves, so does the group |
| ModelPart.LeavesWithinRange | src/main/java/net/fabricmc/example/avatars/FiguaModelPart.java:128-136 | every leaf index below a folded group lies within its range |
| ModelPart.PicksLeaf | src/main/java/net/fabricmc/example/avatars/FiguaModelPart.java:128-136 | a group with leaves below has a first and a last that are leaf indices |
| ModelPart.PicksLeafLow | src/main/java/net/fabricmc/example/avatars/FiguaModelPart.java:130-131 | a group with a leaf-bearing child has a first that is a leaf index |
| ModelPart.ResetBuildTree | src/main/java/net/fabricmc/example/avatars/FiguaModelPart.java:141-147 | the texture index restarts at 0 and `currentElements` is emptied; the element array handed to the tree is every part still pending, those left behind by failed builds first, so the root is at index 0 only when nothing was left behind |
| ModelPart.SetRotAtAll | src/main/java/net/fabricmc/example/avatars/FiguaModelPart.java:223-227 | rotating the part at a pre-order position inside a child list keeps the list's length |
| ModelPart.FlattenSetRotAt | src/main/java/net/fabricmc/example/avatars/FiguaModelPart.java:223-227 | rotating the part at pre-order position i in place changes exactly entry i of the pre-order element list to the rotated part, and every other part keeps its own fields |
| ModelPart.TrsOrder | src/main/java/net/fabricmc/example/avatars/FiguaModelPart.java:209-216 | the TRS matrix applied to a vector moves the pivot to the origin, scales, rotates about Z, then Y, then X, and translates by translation plus pivot, in that order |
| PreRender.Refresh | src/main/java/net/fabricmc/example/avatars/FiguaModelPart.java:157-160 | a pending TRS update replaces the matrix and clears its flag; no other field changes |
| PreRender.Pass | src/main/java/net/fabricmc/example/avatars/FiguaModelPart.java:156-181 | after one pass the tree keeps its shape (names, ranges, pivots, rotations, child counts) and no update flag remains set anywhere |
| PreRender.PassChildren | src/main/java/net/fabricmc/example/avatars/FiguaModelPart.java:171-173 | the child loop keeps every child's shape and settles every child |
| PreRender.ConcatAppend | src/main/java/net/fabricmc/example/avatars/FiguaModelPart.java:168-169 | floats appended block by block to one buffer are the concatenation of the blocks |
| PreRender.ConcatLength | src/main/java/net/fabricmc/example/avatars/FiguaModelPart.java:165-166 | blocks of k floats each fill k times their number |
| PreRender.FloatsLength | src/main/java/net/fabricmc/example/avatars/FiguaModelPart.java:165-166 | every matrix written to the buffer takes sixteen floats, matching the buffer size allocated per texture index |
| PreRender.FloatsSingle | src/main/java/net/fabricmc/example/avatars/FiguaModelPart.java:168-169 | one matrix appends exactly its own sixteen floats |
| PreRender.FloatsAppend | src/main/java/net/fabricmc/example/avatars/FiguaModelPart.java:168-173 | the floats of two matrix lists written one after the other are the two float lists joined |
| PreRender.OwnThenChildren | src/main/java/net/fabricmc/example/avatars/FiguaModelPart.java:168-173 | a node writes its own world matrix, if it is a leaf, before its children's |
| PreRender.LeafWorldsCount | src/main/java/net/fabricmc/example/avatars/FiguaModelPart.java:168-173 | the pass meets one world matrix per geometry leaf |
| PreRender.LeafWorldsAllCount | src/main/java/net/fabricmc/example/avatars/FiguaModelPart.java:171-173 | a child list yields one world matrix per geometry leaf below it |
| PreRender.DirtyPass | src/main/java/net/fabricmc/example/avatars/FiguaModelPart.java:164-173 | below a node whose texture flag was set nothing is uploaded; with a buffer every leaf appends its world matrix in pre-order, without one nothing is written |
| PreRender.DirtyPassAll | src/main/java/net/fabricmc/example/avatars/FiguaModelPart.java:171-173 | the same for a child list under a dirty parent |
| PreRender.CollectorPass | src/main/java/net/fabricmc/example/avatars/FiguaModelPart.java:164-178 | a collector writes nothing to its caller's buffer and makes exactly one upload of its first..last range, holding its leaves' world matrices in pre-order, sixteen floats per leaf |
| PreRender.UploadsAreCollectors | src/main/java/net/fabricmc/example/avatars/FiguaModelPart.java:156-181 | the pass issues exactly one upload per collector (a flagged node under a clean parent with a non-empty range), in pre-order |
| PreRender.UploadsAreCollectorsAll | src/main/java/net/fabricmc/example/avatars/FiguaModelPart.java:171-173 | the same for a child list |
| PreRender.IdlePass | src/main/java/net/fabricmc/example/avatars/FiguaModelPart.java:156-181 | with no texture flag anywhere a top-level pass writes and uploads nothing |
| PreRender.IdlePassAll | src/main/java/net/fabricmc/example/avatars/FiguaModelPart.java:171-173 | the same for a child list |
| PreRender.SettledIsTextureClean | src/main/java/net/fabricmc/example/avatars/FiguaModelPart.java:180 | a settled tree has no texture flag set anywhere |
| PreRender.SecondPassIdle | src/main/java/net/fabricmc/example/avatars/FiguaModelPart.java:156-181 | a second pass with no setter in between uploads nothing |
| PreRender.WorldIsParentThenLocal | src/main/java/net/fabricmc/example/avatars/FiguaModelPart.java:162 | a leaf's world matrix is its refreshed local transform applied after its parent's world matrix |
| PreRender.PassRefreshes | src/main/java/net/fabricmc/example/avatars/FiguaModelPart.java:156-173 | a pass keeps every part at its pre-order position, with its Lua index and rotation, and leaves each with the matrix its pending TRS update gives |
| PreRender.InvisiblePartReappears | src/main/java/net/fabricmc/example/avatars/FiguaModelPart.java:115-116 | as written, an invisible part's first pass replaces its zero-scale matrix with the identity, so it shows; with the intended setter it stays hidden |
| PartDeserializer.ToVector3 | src/main/java/net/fabricmc/example/management/deserializers/ModelPartDeserializer.java:54-59 | a float list reads as a vector iff it has at least three elements, taking the first three in order; a shorter list fails with an index-out-of-bounds error |
| PartDeserializer.BuildWith | src/main/java/net/fabricmc/example/management/deserializers/ModelPartDeserializer.java:26-52 | a built part carries the compound's name (empty when absent) and the build count as its Lua index, is a geometry leaf iff the compound has no children key, and then consumes exactly one texture index and one element slot; the build state never moves backwards |
| PartDeserializer.BuildChildrenWith | src/main/java/net/fabricmc/example/management/deserializers/ModelPartDeserializer.java:44-49 | attaching the children keeps the group's name, Lua index and group-ness, and never moves the build state backwards |
| PartDeserializer.DeserializeWith | src/main/java/net/fabricmc/example/management/deserializers/ModelPartDeserializer.java:12-19 | a non-compound root fails with the illegal-type message and leaves the build state alone; success resets the build state, and the tree's element array is the parts pending before the call followed by the tree's own, the root right after them; a failure below the root escapes before the reset, leaving the state the failed build reached |
| PartDeserializer.Deserialize | src/main/java/net/fabricmc/example/management/deserializers/ModelPartDeserializer.java:12-19 | the same with the source's part constructor: the element array keeps the stale parts before the root |
| PartDeserializer.FlattenAllSnoc | src/main/java/net/fabricmc/example/management/deserializers/ModelPartDeserializer.java:46-48 | attaching a child last appends its subtree at the end of the pre-order element list |
| PartDeserializer.LeafIndicesAllSnoc | src/main/java/net/fabricmc/example/management/deserializers/ModelPartDeserializer.java:46-48 | attaching a child last appends its leaf indices at the end |
| PartDeserializer.BuildNumbers | src/main/java/net/fabricmc/example/management/deserializers/ModelPartDeserializer.java:26-52 | every part of a built subtree has Lua index = the build count before it plus its pre-order position, and the subtree has exactly as many parts as the build counted |
| PartDeserializer.BuildChildrenNumbers | src/main/java/net/fabricmc/example/management/deserializers/ModelPartDeserializer.java:44-49 | the children loop keeps the parts below a group numbered consecutively after the group's own Lua index |
| PartDeserializer.BuildLeaves | src/main/java/net/fabricmc/example/management/deserializers/ModelPartDeserializer.java:26-52 | the geometry leaves of a built subtree hold exactly the next texture indices, consecutively and in pre-order |
| PartDeserializer.BuildChildrenLeaves | src/main/java/net/fabricmc/example/management/deserializers/ModelPartDeserializer.java:44-49 | the children loop appends exactly the texture indices it consumed to the group's leaf list |
| PartDeserializer.LeavesStep | src/main/java/net/fabricmc/example/management/deserializers/ModelPartDeserializer.java:46-48 | one loop step glues the new child's run of texture indices to the runs before and after it |
| PartDeserializer.BuildRanges | src/main/java/net/fabricmc/example/management/deserializers/ModelPartDeserializer.java:26-52 | every built subtree satisfies the range invariant of addChild |
| PartDeserializer.BuildChildrenRanges | src/main/java/net/fabricmc/example/management/deserializers/ModelPartDeserializer.java:44-49 | the children loop keeps the range invariant |
| PartDeserializer.RunSpan | src/main/java/net/fabricmc/example/management/deserializers/ModelPartDeserializer.java:44-49 | a part spanning a consecutive run of leaf indices has the run's ends as its range |
| PartDeserializer.BuildLeafRun | src/main/java/net/fabricmc/example/management/deserializers/ModelPartDeserializer.java:26-52 | while texture indices stay within 0..1000000, every part's leaves form one consecutive run from its first to its last index, and a part with no leaves keeps an empty range |
| PartDeserializer.OwnRun | src/main/java/net/fabricmc/example/management/deserializers/ModelPartDeserializer.java:26-52 | the node step: a folded part whose leaves are a run within bounds spans exactly that run |
| PartDeserializer.BuildChildrenLeafRun | src/main/java/net/fabricmc/example/management/deserializers/ModelPartDeserializer.java:44-49 | the children loop keeps every attached child's leaves a consecutive run |
| PartDeserializer.DeserializedTree | src/main/java/net/fabricmc/example/management/deserializers/ModelPartDeserializer.java:12-19 | from a reset build state, a successful deserialize puts every part at its own Lua index in the element array, numbers the leaves 0..k-1 in pre-order, keeps the range invariant, and (within bounds) makes the root's last index one less than the leaf count |
| PartDeserializer.TreeAtOwnIndices | src/main/java/net/fabricmc/example/management/deserializers/ModelPartDeserializer.java:12-19 | from any build state, a successful deserialize puts the tree's part at pre-order position i at index count + i of the element array, and that part's Lua index is count + i, so every part of the tree sits at its own Lua index |
| PartDeserializer.DeserializedRootDirty | src/main/java/net/fabricmc/example/avatars/FiguaModelPart.java:91-120 | a freshly deserialized root has its texture flag raised, so the first frame uploads the whole tree |
| PartDeserializer.Defaults | src/main/java/net/fabricmc/example/management/deserializers/ModelPartDeserializer.java:27-37 | a part with no pivot, rotation or visibility key reads as zero pivot, zero rotation and visible |
| PartDeserializer.DefaultsAtRest | src/main/java/net/fabricmc/example/management/deserializers/ModelPartDeserializer.java:27-43 | a part constructed from those defaults has the identity transform |
| PartDeserializer.ReadFailure | src/main/java/net/fabricmc/example/management/deserializers/ModelPartDeserializer.java:32-35 | reading a part fails, leaving the build state alone, exactly when a present pivot or rotation list has fewer than three floats |
| PartDeserializer.EmptyGroup | src/main/java/net/fabricmc/example/management/deserializers/ModelPartDeserializer.java:38-49 | a group holding only an empty group has no leaf: its range stays the empty marker, and two parts are counted without a texture index |
| PartDeserializer.StaleStateAfterFailure | src/main/java/net/fabricmc/example/management/deserializers/ModelPartDeserializer.java:15-16 | a failure below the root escapes before the build state is reset, leaving the part constructed before it pending, so the next tree's element array does not start with its root |
| PartDeserializer.StaleStateAfterDeserialize | src/main/java/net/fabricmc/example/management/deserializers/ModelPartDeserializer.java:12-19 | the same stale build state arises with the source's part constructor |
| PartDeserializer.IntendedConstructorShaped | src/main/java/net/fabricmc/example/management/deserializers/ModelPartDeserializer.java:43 | the constructor with the corrected `setTransform` numbers parts and assigns index ranges exactly as the source's constructor does, so the tree-building properties hold for it too |
| PartTables.PushTable | src/main/java/net/fabricmc/example/avatars/FiguaModelPart.java:278-299 | a part's table holds exactly one key per child name plus the reserved key, which maps to the part's Lua index |
| PartTables.ChildFields | src/main/java/net/fabricmc/example/avatars/FiguaModelPart.java:282-288 | the child entries of a table are keyed by exactly the children's names |
| PartTables.LastSiblingWins | src/main/java/net/fabricmc/example/avatars/FiguaModelPart.java:282-288 | when siblings share a name, the one stored last is the one its parent's table yields |
| PartTables.LastNamed | src/main/java/net/fabricmc/example/avatars/FiguaModelPart.java:282-288 | every child has a last sibling of the same name after which the name does not recur |
| PartTables.Index | src/main/java/net/fabricmc/example/avatars/FiguaModelPart.java:323-338 | reading a key yields the raw entry when present, else the part function of that name from the index table, else nil |
| PartTables.Assign | src/main/java/net/fabricmc/example/avatars/FiguaModelPart.java:305-309 | as written: assigning to a part table fails with the edit error iff the key is absent; a present key is overwritten or, with nil, removed, and every other key keeps its value |
| PartTables.AssignIntended | src/main/java/net/fabricmc/example/avatars/FiguaModelPart.java:305-309 | the intended assignment always fails with "Cannot edit model part tables!" |
| PartTables.GetMetatable | src/main/java/net/fabricmc/example/avatars/FiguaModelPart.java:311-313 | getmetatable on a part table yields false, hiding the metatable |
| PartTables.ToString | src/main/java/net/fabricmc/example/avatars/FiguaModelPart.java:315-321 | tostring on a part table is "[Model Part Table]" |
| PartTables.GetModelPart | src/main/java/net/fabricmc/example/avatars/FiguaModelPart.java:362-381 | a non-table first argument is a bad argument 1; a missing reserved key or a value `checkInteger` rejects is a bad argument; success returns the element at the reserved index after the cast to a 32-bit int; an index outside the array is an index-out-of-bounds error |
| PartTables.CheckInteger | src/main/java/net/fabricmc/example/avatars/FiguaModelPart.java:370 | Lua 5.3's `checkinteger`: an integer is taken as it is, a float exactly when it is integral and within the 64-bit range, as that integer; anything else is a bad argument |
| PartTables.TableIndex | src/main/java/net/fabricmc/example/avatars/FiguaModelPart.java:363-370 | a non-table is a bad argument 1, a missing reserved key a bad argument; otherwise the index is the checked integer cast to a 32-bit int, or the check's error |
| PartTables.ScriptSetRot | src/main/java/net/fabricmc/example/avatars/FiguaModelPart.java:342-348 | argument 2 must be a Vector3 and is checked first; a failed part lookup passes its error on; success rotates the looked-up part in place: that entry of the element array alone is rotated, the others keep their fields, and when the part belongs to the tree the tree's root holds the rotated part, while a stale part leaves the tree alone |
| PartTables.CreateAsGlobal | src/main/java/net/fabricmc/example/avatars/FiguaModelPart.java:259-272 | the root's table becomes the named global, every other global keeps its value, no new global appears, and the temporary metatable global ends up nil |
| PartTables.ChildTableIndex | src/main/java/net/fabricmc/example/avatars/FiguaModelPart.java:282-293 | a child reached by name from its parent's table, with no later sibling of that name, is the table carrying that child's Lua index |
| PartTables.ReservedNameShadowsChild | src/main/java/net/fabricmc/example/avatars/FiguaModelPart.java:290-293 | a child named like the reserved key is unreachable from its parent's table: the key yields the parent's own index instead |
| PartTables.SetRotReachable | src/main/java/net/fabricmc/example/avatars/FiguaModelPart.java:323-338 | `setRot` is reachable by indexing a part table exactly when no child is named `setRot` |
| PartTables.TableResolvesToPart | src/main/java/net/fabricmc/example/avatars/FiguaModelPart.java:362-381 | a part stored at its own Lua index, in an array of at most 2^31 entries, is what its own table resolves to |
| PartTables.TreeTablesResolve | src/main/java/net/fabricmc/example/avatars/FiguaModelPart.java:362-381 | from any build state, stale parts included, the table of every part of a deserialized tree resolves back to that very part |
| PartTables.ScriptSetRotOnOwnTable | src/main/java/net/fabricmc/example/avatars/FiguaModelPart.java:342-348 | `part:setRot(v)` on a part stored at its own index rotates exactly that entry, its rotation reads back as v degrees, and every other entry keeps its fields |
| PartTables.SetRotThenPass | src/main/java/net/fabricmc/example/avatars/FiguaModelPart.java:156-160 | after `part:setRot(v)` on a part of the tree, the next pre-render pass rebuilds that part's matrix from the new rotation, at the same pre-order position and Lua index |
| PartTables.ReservedKeyRedirects | src/main/java/net/fabricmc/example/avatars/FiguaModelPart.java:305-309 | as written, a script can overwrite the reserved key of a part table, after which the table resolves to a different part |
| PartTables.IntendedTablesStayBound | src/main/java/net/fabricmc/example/avatars/FiguaModelPart.java:305-309 | with the intended guard every assignment fails, so each table keeps resolving to its own part |
| ByteCodec.LowByte | src/main/java/net/fabricmc/example/management/serializers/BBModelSerializer.java:249-250 | the byte a cast to byte writes agrees with the int modulo 256 |
| ByteCodec.Signed8 | src/main/java/net/fabricmc/example/management/deserializers/VertexDataDeserializer.java:69-71 | a byte read from the stream is a signed value in -128..127 whose low eight bits are the byte |
| ByteCodec.Wrap16 | src/main/java/net/fabricmc/example/management/serializers/BBModelSerializer.java:248 | narrowing to short lands in -32768..32767, agrees with the int modulo 65536, and keeps an int already in range |
| ByteCodec.ToInt | src/main/java/net/fabricmc/example/management/serializers/BBModelSerializer.java:248 | the cast of a double to int lands in the 32-bit range |
| ByteCodec.ToShort | src/main/java/net/fabricmc/example/management/serializers/BBModelSerializer.java:248 | the cast of a double to short lands in -32768..32767 |
| ByteCodec.ShortExact | src/main/java/net/fabricmc/example/management/serializers/BBModelSerializer.java:247-250 | a whole coordinate within the short range is written exactly |
| ByteCodec.ShortWraps | src/main/java/net/fabricmc/example/management/serializers/BBModelSerializer.java:247-250 | whole coordinates 65536 apart are written as the same short |
| ByteCodec.IntBytes | src/main/java/net/fabricmc/example/management/serializers/BBModelSerializer.java:211-214 | an int is written as four bytes |
| ByteCodec.ReadInt | src/main/java/net/fabricmc/example/management/deserializers/VertexDataDeserializer.java:58 | reading an int fails with a buffer underflow iff fewer than four bytes remain, and otherwise consumes exactly four |
| ByteCodec.IntRoundTrip | src/main/java/net/fabricmc/example/management/serializers/BBModelSerializer.java:211-214 | reading back the four bytes written for an int yields the int and leaves the rest of the stream |
| ByteCodec.ShortBytes | src/main/java/net/fabricmc/example/management/serializers/BBModelSerializer.java:249-250 | a short is written as two bytes |
| ByteCodec.ReadShort | src/main/java/net/fabricmc/example/management/deserializers/VertexDataDeserializer.java:207-213 | reading a short fails with a buffer underflow iff fewer than two bytes remain, and otherwise yields a value in the short range and consumes exactly two |
| ByteCodec.ShortRoundTrip | src/main/java/net/fabricmc/example/management/serializers/BBModelSerializer.java:249-250 | reading back the two bytes written for a short yields the short and leaves the rest |
| ByteCodec.ReadByte | src/main/java/net/fabricmc/example/management/deserializers/VertexDataDeserializer.java:69 | reading a byte fails with a buffer underflow iff the stream is empty, and otherwise splits off its first byte |
| ByteCodec.Clear | src/main/java/net/fabricmc/example/management/serializers/BBModelSerializer.java:175 | the flag word starts with all 32 bits clear |
| ByteCodec.Set | src/main/java/net/fabricmc/example/management/serializers/BBModelSerializer.java:183-184 | or-ing in bit k sets exactly bit k and keeps every other bit |
| ByteCodec.Value | src/main/java/net/fabricmc/example/management/serializers/BBModelSerializer.java:211-214 | the value of n bits is below 2^n |
| ByteCodec.ToBits | src/main/java/net/fabricmc/example/management/deserializers/VertexDataDeserializer.java:58 | the bits of a value are as many as asked for |
| ByteCodec.BitsRoundTrip | src/main/java/net/fabricmc/example/management/deserializers/VertexDataDeserializer.java:58 | reading a bit list's value back as bits gives the same list |
| ByteCodec.FlagsRoundTrip | src/main/java/net/fabricmc/example/management/deserializers/VertexDataDeserializer.java:58 | the flag word read back from the int written for it has the same bits |
| ByteCodec.PutNumber | src/main/java/net/fabricmc/example/management/serializers/BBModelSerializer.java:246-258 | a number slot takes four bytes when its flag bit is set and two otherwise |
| ByteCodec.ReadNumber | src/main/java/net/fabricmc/example/management/deserializers/VertexDataDeserializer.java:207-213 | reading a number slot fails with a buffer underflow iff fewer bytes remain than its flag bit says it takes |
| ByteCodec.NumberRoundTrip | src/main/java/net/fabricmc/example/management/serializers/BBModelSerializer.java:246-258 | reading a number back under the same flags yields the value it carries (the float, or the short the double was cut to) and leaves the rest of the stream |
| ByteCodec.ReadNumbers | src/main/java/net/fabricmc/example/management/deserializers/VertexDataDeserializer.java:59-66 | a run of n number slots read successfully gives n numbers; every failure is a buffer underflow |
| ByteCodec.StoredAll | src/main/java/net/fabricmc/example/management/serializers/BBModelSerializer.java:216-221 | slot by slot, the values a run of numbers carries through the format |
| ByteCodec.NumbersRoundTrip | src/main/java/net/fabricmc/example/management/serializers/BBModelSerializer.java:216-221 | reading back a run of numbers written under one flag word yields their carried values and leaves the rest of the stream |
| ByteCodec.MarkNonIntegralBits | src/main/java/net/fabricmc/example/management/serializers/BBModelSerializer.java:183-197 | after marking a run of numbers, bit k is set iff it was set before or the number in slot k is not whole |
| ByteCodec.StoredWhole | src/main/java/net/fabricmc/example/management/serializers/BBModelSerializer.java:183-197 | under flags that mark exactly the non-whole numbers, a whole number within the short range comes back exactly and any other comes back as its float |
| BBModelSerializer.ProcessFace | src/main/java/net/fabricmc/example/management/serializers/BBModelSerializer.java:270-290 | a missing face object is a null-pointer error; a JSON-null texture yields the no-texture byte -1 with zero rotation and UVs and unchanged flags; a textured face keeps the first four UVs of its array; a missing texture key reads as texture 0 |
| BBModelSerializer.ProcessFaces | src/main/java/net/fabricmc/example/management/serializers/BBModelSerializer.java:204-209 | processing faces from a given index on yields one face record per remaining face, each with four UVs |
| BBModelSerializer.Textured | src/main/java/net/fabricmc/example/management/serializers/BBModelSerializer.java:223-234 | the textured faces are at most all the faces |
| BBModelSerializer.ProcessCuboid | src/main/java/net/fabricmc/example/management/serializers/BBModelSerializer.java:173-235 | a cuboid without faces fails with a null pointer; otherwise it has six faces of four UVs, counts four vertices and six indices per textured face and one cuboid, and its bytes follow the record layout |
| BBModelSerializer.FaceMarks | src/main/java/net/fabricmc/example/management/serializers/BBModelSerializer.java:283-287 | one face sets exactly the flag bits of its own non-whole UVs and leaves every other bit as it was |
| BBModelSerializer.FacesKeep | src/main/java/net/fabricmc/example/management/serializers/BBModelSerializer.java:204-209 | processing the faces from an index on leaves the corner bits, earlier faces' bits and the two high bits alone |
| BBModelSerializer.FacesMark | src/main/java/net/fabricmc/example/management/serializers/BBModelSerializer.java:204-209 | processing faces from an index on sets the bit of UV j of face i iff it was set already or that UV is not whole |
| BBModelSerializer.LaterFaceMark | src/main/java/net/fabricmc/example/management/serializers/BBModelSerializer.java:204-209 | the same for a face after the first one processed |
| BBModelSerializer.FirstFaceMark | src/main/java/net/fabricmc/example/management/serializers/BBModelSerializer.java:283-287 | the first face processed marks its own UVs iff they are not whole, and later faces leave those bits alone |
| BBModelSerializer.CuboidFlags | src/main/java/net/fabricmc/example/management/serializers/BBModelSerializer.java:183-209 | in a cuboid's flag word, bit k for k < 30 is set iff number k of the record is not whole, and bits 30 and 31 are clear |
| BBModelSerializer.CuboidSteps | src/main/java/net/fabricmc/example/management/serializers/BBModelSerializer.java:175-209 | the flags the faces start from mark exactly the non-whole corner coordinates |
| BBModelSerializer.CuboidFlagBit | src/main/java/net/fabricmc/example/management/serializers/BBModelSerializer.java:183-209 | the same, one bit at a time |
| BBModelSerializer.FaceSlot | src/main/java/net/fabricmc/example/management/serializers/BBModelSerializer.java:229-231 | every slot past the six corner numbers is UV j of face i with k = 6 + 4i + j |
| BBModelSerializer.CollectElementsByUuid | src/main/java/net/fabricmc/example/management/serializers/BBModelSerializer.java:298-309 | a uuid is a key of the map iff some element object carries it; non-objects and objects without a uuid are skipped |
| BBModelSerializer.LastElementWins | src/main/java/net/fabricmc/example/management/serializers/BBModelSerializer.java:298-309 | for a uuid shared by several elements, the last one is kept |
| BBModelSerializer.ProcessParts | src/main/java/net/fabricmc/example/management/serializers/BBModelSerializer.java:123-149 | every outliner entry yields exactly one part compound, in order |
| BBModelSerializer.ProcessPart | src/main/java/net/fabricmc/example/management/serializers/BBModelSerializer.java:124-148 | one entry yields one part compound; a uuid with no element is a null-pointer error |
| BBModelSerializer.Parse | src/main/java/net/fabricmc/example/management/serializers/BBModelSerializer.java:63-111 | the model compound has version 0.1.0, the texture size of the model, and a root compound named "root" with a children list and no pivot, rotation or visibility |
| BBModelSerializer.NbtLeavesAllAppend | src/main/java/net/fabricmc/example/management/serializers/BBModelSerializer.java:139-147 | the leaf compounds of two part lists joined are their leaves joined |
| BBModelSerializer.RecordsAreLeaves | src/main/java/net/fabricmc/example/management/serializers/BBModelSerializer.java:123-149 | with every group carrying a children array, there is one cuboid record per leaf compound, and the cuboid count equals both |
| BBModelSerializer.RecordIsLeaf | src/main/java/net/fabricmc/example/management/serializers/BBModelSerializer.java:124-148 | the same for one outliner entry |
| BBModelSerializer.Tally | src/main/java/net/fabricmc/example/management/serializers/BBModelSerializer.java:174 | the cuboid count of a run of records is its length, and the vertex and index counts are non-negative |
| BBModelSerializer.TallyAppend | src/main/java/net/fabricmc/example/management/serializers/BBModelSerializer.java:123-149 | the counts of two runs of records add up |
| BBModelSerializer.PartsTally | src/main/java/net/fabricmc/example/management/serializers/BBModelSerializer.java:123-149 | the counts processParts accumulates are exactly those of the records it emits, and every record is well formed |
| BBModelSerializer.PartTally | src/main/java/net/fabricmc/example/management/serializers/BBModelSerializer.java:124-148 | the same for one outliner entry |
| BBModelSerializer.SingleTally | src/main/java/net/fabricmc/example/management/serializers/BBModelSerializer.java:223-234 | one record counts one cuboid and four vertices and six indices per textured face |
| VertexDataDeserializer.ReadFace | src/main/java/net/fabricmc/example/management/deserializers/VertexDataDeserializer.java:69-75 | reading a face fails only with a buffer underflow; a textured face comes back with four UV numbers |
| VertexDataDeserializer.FaceRoundTrip | src/main/java/net/fabricmc/example/management/deserializers/VertexDataDeserializer.java:69-75 | reading back a face record written by the serializer yields the skipped face for texture -1, and otherwise its rotation and its four UVs as the flags carry them, leaving the rest of the stream |
| VertexDataDeserializer.Corners | src/main/java/net/fabricmc/example/management/deserializers/VertexDataDeserializer.java:77-156 | each face has four corners |
| VertexDataDeserializer.NormalsPointOutward | src/main/java/net/fabricmc/example/management/deserializers/VertexDataDeserializer.java:77-177 | for a box whose from corner lies below its to corner on every axis, the normal computed from each face's first three corners points out of the box on that face's side |
| VertexDataDeserializer.Rotations | src/main/java/net/fabricmc/example/management/deserializers/VertexDataDeserializer.java:202-203 | turning the corner list keeps four corners |
| VertexDataDeserializer.RotateUV | src/main/java/net/fabricmc/example/management/deserializers/VertexDataDeserializer.java:196-205 | rotateUV yields four corner UVs |
| VertexDataDeserializer.RotationsShift | src/main/java/net/fabricmc/example/management/deserializers/VertexDataDeserializer.java:196-205 | after rot >= 0 turns, corner i is the original corner (i - rot) mod 4 |
| VertexDataDeserializer.RotationsPeriodic | src/main/java/net/fabricmc/example/management/deserializers/VertexDataDeserializer.java:202-203 | a rotation of zero or less leaves the corners alone, and rotations repeat every four turns |
| VertexDataDeserializer.ExtendsTransitive | src/main/java/net/fabricmc/example/management/deserializers/VertexDataDeserializer.java:173-185 | extending the buffers twice is extending them once |
| VertexDataDeserializer.AddFace | src/main/java/net/fabricmc/example/management/deserializers/VertexDataDeserializer.java:173-185 | writing a face fails with a buffer overflow iff either buffer lacks room for four vertices or six indices; otherwise it adds exactly four vertices tagged with the cuboid index cut to a short and six indices, all naming written vertices, keeping what was written before |
| VertexDataDeserializer.AddFaceWrites | src/main/java/net/fabricmc/example/management/deserializers/VertexDataDeserializer.java:176-193 | the four new vertices sit at the face's corners and, with exact division by a nonzero texture size, their UVs scaled back up are the face's UVs |
| VertexDataDeserializer.DecodeFace | src/main/java/net/fabricmc/example/management/deserializers/VertexDataDeserializer.java:69-82 | one face step only extends the buffers, and fails only by underflow or overflow |
| VertexDataDeserializer.DecodeFaces | src/main/java/net/fabricmc/example/management/deserializers/VertexDataDeserializer.java:68-157 | the six face steps only extend the buffers, and fail only by underflow or overflow |
| VertexDataDeserializer.ReadHeader | src/main/java/net/fabricmc/example/management/deserializers/VertexDataDeserializer.java:58-66 | reading the flags and corners fails only with a buffer underflow |
| VertexDataDeserializer.DecodeCuboid | src/main/java/net/fabricmc/example/management/deserializers/VertexDataDeserializer.java:57-159 | one cuboid only extends the buffers with vertices tagged by its index, and fails only by underflow or overflow |
| VertexDataDeserializer.DecodeCuboids | src/main/java/net/fabricmc/example/management/deserializers/VertexDataDeserializer.java:46-47 | the cuboid loop never shrinks the buffers, keeps every index naming a written vertex, and fails only by underflow or overflow |
| VertexDataDeserializer.Deserialize | src/main/java/net/fabricmc/example/management/deserializers/VertexDataDeserializer.java:24-55 | a non-compound fails with the illegal-type message; a wrong version fails with the message naming both versions; a decoded mesh has every index naming a written vertex |
| VertexDataDeserializer.HeaderRoundTrip | src/main/java/net/fabricmc/example/management/deserializers/VertexDataDeserializer.java:58-66 | reading the header of a serialized record gives back its flag word and its corners as stored, scaled to world units, and stops at the faces |
| VertexDataDeserializer.CornerExact | src/main/java/net/fabricmc/example/management/deserializers/VertexDataDeserializer.java:59-66 | with flags marking exactly the non-whole numbers, a whole corner coordinate in the short range comes back exactly and any other comes back as its float |
| VertexDataDeserializer.FaceStep | src/main/java/net/fabricmc/example/management/deserializers/VertexDataDeserializer.java:69-82 | reading one serialized face writes four vertices and six indices if it is textured and nothing otherwise, and stops right after it |
| VertexDataDeserializer.FacesRoundTrip | src/main/java/net/fabricmc/example/management/deserializers/VertexDataDeserializer.java:68-157 | reading a record's faces writes four vertices and six indices per textured face and stops right after them, when both buffers have room |
| VertexDataDeserializer.CuboidRoundTrip | src/main/java/net/fabricmc/example/management/deserializers/VertexDataDeserializer.java:57-159 | a serialized cuboid record decodes completely, adding what its counts promise |
| VertexDataDeserializer.CuboidsRoundTrip | src/main/java/net/fabricmc/example/management/deserializers/VertexDataDeserializer.java:46-47 | a run of serialized records decodes completely, adding what their tally promises |
| VertexDataDeserializer.ParsedRecords | src/main/java/net/fabricmc/example/management/deserializers/VertexDataDeserializer.java:34-47 | the serializer's vertex data is its well-formed records joined, with the record count and their tally as the counts |
| VertexDataDeserializer.DeserializeDecodes | src/main/java/net/fabricmc/example/management/deserializers/VertexDataDeserializer.java:24-55 | a compound of the current version whose vertex buffer size fits in an int is decoded from byte 0 into buffers sized exactly by its counts |
| VertexDataDeserializer.ParseThenDeserialize | src/main/java/net/fabricmc/example/management/deserializers/VertexDataDeserializer.java:24-55 | a compound straight from the serializer decodes without error and fills both buffers exactly to the counts it carries, every index naming a written vertex, provided its vertex buffer size fits in an int |
| VertexLayout.TypeBytes | src/main/java/net/fabricmc/example/rendering/VertexLayout.java:76-84 | exactly the seven listed GL types have a size: one byte for the byte types, two for the shorts, four for ints and floats |
| VertexLayout.Attribute | src/main/java/net/fabricmc/example/rendering/VertexLayout.java:38-46 | an unlisted type fails with a null pointer (the size lookup unboxes null); otherwise the four entries count, type, normalized and integer are appended, the attribute count grows by one and the vertex size by count times the type's size |
| VertexLayout.WidthPrefix | src/main/java/net/fabricmc/example/rendering/VertexLayout.java:38-46 | appending entries leaves the width of the earlier attributes unchanged |
| VertexLayout.AttributeKeepsValid | src/main/java/net/fabricmc/example/rendering/VertexLayout.java:38-46 | adding an attribute keeps four entries per attribute and the vertex size equal to the total width |
| VertexLayout.PointerCall | src/main/java/net/fabricmc/example/rendering/VertexLayout.java:55-61 | attribute k gets location k, the integer pointer call iff its integer entry is non-zero, its count, type and normalized flag, and the vertex size as stride |
| VertexLayout.SetupAttribPointers | src/main/java/net/fabricmc/example/rendering/VertexLayout.java:52-64 | for each attribute in order the pointer call then the enable call, each pointer at the summed width of the attributes before it, ending at the vertex size |
| RenderUtils.DefaultLayout | src/main/java/net/fabricmc/example/rendering/RenderUtils.java:29-34 | the default layout has five supported attributes (position, color, UV, normal, transform index) totalling 38 bytes per vertex |
| RenderUtils.DefaultPrefix | src/main/java/net/fabricmc/example/rendering/RenderUtils.java:29-33 | its first four attributes take 36 bytes |
| RenderUtils.DefaultColor | src/main/java/net/fabricmc/example/rendering/RenderUtils.java:29-31 | its first two attributes take 16 bytes |
| RenderUtils.DefaultVertexLayout | src/main/java/net/fabricmc/example/rendering/RenderUtils.java:27-37 | the first request builds the 38-byte default layout and caches it; later requests return the cached layout unchanged |
| RenderUtils.DefaultLayoutIsShared | src/main/java/net/fabricmc/example/rendering/RenderUtils.java:27-37 | a second request returns what the first returned and leaves the cache alone |
| RenderUtils.GetProjection | src/main/java/net/fabricmc/example/rendering/RenderUtils.java:75-81 | a new field of view rebuilds, caches and returns the projection for it; an unchanged one returns the cached matrix and leaves the cache alone |
| RenderUtils.ProjectionCached | src/main/java/net/fabricmc/example/rendering/RenderUtils.java:75-81 | asking twice at the same field of view gives the same matrix and cache |
| RenderUtils.ZeroFovFirstCallIsNull | src/main/java/net/fabricmc/example/rendering/RenderUtils.java:72-81 | the very first request at field of view 0 matches the initial cache and returns null |
| LuaValues.ToNumber | src/main/java/net/fabricmc/example/lua/api/VectorsApi.java:19 | a number argument reads as its value, an integer converted exactly |
| LuaValues.CheckNumber | src/main/java/net/fabricmc/example/lua/api/VectorsApi.java:22-23 | checkNumber succeeds iff the argument is a number, yielding it, and otherwise raises a bad-argument error naming that position |
| LuaValues.CheckVector3 | src/main/java/net/fabricmc/example/avatars/FiguaModelPart.java:344 | checkJavaObject for a Vector3 succeeds iff the argument is present and a Vector3, yielding it, and otherwise raises a bad-argument error naming that position |
| LuaValues.NatString | src/main/java/net/fabricmc/example/lua/LuaManager.java:62 | an integer prints as a non-empty run of decimal digits, a single digit exactly for 0..9 |
| LuaValues.Digit | src/main/java/net/fabricmc/example/lua/LuaManager.java:62 | a digit value prints as a decimal digit character |
| LuaValues.NatStringValue | src/main/java/net/fabricmc/example/lua/LuaManager.java:62 | reading back the printed digits of a natural number gives the number |
| LuaValues.IntString | src/main/java/net/fabricmc/example/lua/LuaManager.java:62 | an integer prints as its digits, with a minus sign when negative |
| LuaValues.CheckString | src/main/java/net/fabricmc/example/lua/LuaManager.java:62 | checkString succeeds iff the argument is a string or a number, yielding the string itself or the integer's digits, and otherwise raises a bad-argument error naming that position |
| LuaValues.TypeName | src/main/java/net/fabricmc/example/lua/LuaManager.java:64 | nil, numbers, strings and tables are named "nil", "number", "string" and "table", each name for exactly that kind |
| VectorsApi.Installed | src/main/java/net/fabricmc/example/lua/api/VectorsApi.java:10-66 | the vectors global holds exactly vec2, vec3 and vec4, each bound to its constructor |
| VectorsApi.ReadNumbers | src/main/java/net/fabricmc/example/lua/api/VectorsApi.java:22-24 | reading n arguments succeeds iff the first n are numbers, yielding them in order; otherwise the error names the first position that is not a number |
| VectorsApi.Components | src/main/java/net/fabricmc/example/lua/api/VectorsApi.java:17-27 | the reference reading: a width-n vector gets n components, all the first argument when argument 2 is absent |
| VectorsApi.Vec2Of | src/main/java/net/fabricmc/example/lua/api/VectorsApi.java:17-27 | vec2 succeeds iff the reference reading does, with components in order x, y, and fails with the same error otherwise |
| VectorsApi.Vec3Of | src/main/java/net/fabricmc/example/lua/api/VectorsApi.java:33-44 | vec3 succeeds iff the reference reading does, with components in order x, y, z, and fails with the same error otherwise |
| VectorsApi.Vec4Of | src/main/java/net/fabricmc/example/lua/api/VectorsApi.java:50-62 | vec4 succeeds iff the reference reading does, with components in order x, y, z, w, and fails with the same error otherwise |
| VectorsApi.Call | src/main/java/net/fabricmc/example/lua/api/VectorsApi.java:17-63 | calling an installed name succeeds exactly when its constructor does and returns a vector |
| VectorsApi.OneArgumentFills | src/main/java/net/fabricmc/example/lua/api/VectorsApi.java:18-20 | one number fills every component of all three vectors; one non-number or no argument at all raises at position 1 |
| VectorsApi.Vec3NeedsThree | src/main/java/net/fabricmc/example/lua/api/VectorsApi.java:37-41 | vec3 with two numbers raises at position 3 |
| VectorsApi.Vec2IgnoresRest | src/main/java/net/fabricmc/example/lua/api/VectorsApi.java:21-24 | vec2 ignores arguments past the second |
| VectorsApi.Vec4Arity | src/main/java/net/fabricmc/example/lua/api/VectorsApi.java:50-62 | over numbers, vec4 succeeds iff it gets one or at least four, and two or three raise at the first missing position |
| LuaManager.OpenLib | src/main/java/net/fabricmc/example/lua/LuaManager.java:76-80 | opening a library records it after the earlier ones, keeps the memory limit, and adds its globals, replacing any of the same name |
| LuaManager.SetGlobal | src/main/java/net/fabricmc/example/lua/LuaManager.java:34-35 | setting a global to nil removes the name and keeps the rest; any other value binds it |
| LuaManager.Global | src/main/java/net/fabricmc/example/lua/LuaManager.java:69-70 | an unbound global reads as nil |
| LuaManager.EventsGlobal | src/main/java/net/fabricmc/example/lua/LuaManager.java:29 | the events global is a table of exactly the two channels |
| LuaManager.Sandbox | src/main/java/net/fabricmc/example/lua/LuaManager.java:96-111 | the sandbox script succeeds iff the string global is a table; it then removes exactly the listed globals, keeps every other, and drops dump from the string table; otherwise it raises a Lua error |
| LuaManager.OpenLibraries | src/main/java/net/fabricmc/example/lua/LuaManager.java:74-83 | a fresh state has the one-megabyte limit and the base, table, string and math libraries open in that order, with their globals |
| LuaManager.Install | src/main/java/net/fabricmc/example/lua/LuaManager.java:27-35 | vectors and events are installed and log and print bound to the function that does nothing; every other global is kept and nothing else is added |
| LuaManager.CreatedState | src/main/java/net/fabricmc/example/lua/LuaManager.java:21-42 | creation succeeds iff the libraries leave a string table; the created state then has the limit and four libraries, no removed name, the four installed names over the libraries' globals, string.dump gone, and every other library global kept |
| LuaManager.NamesApart | src/main/java/net/fabricmc/example/lua/LuaManager.java:96-111 | the names createLuaState installs, string and collectgarbage are not among those the sandbox removes |
| LuaManager.SandboxRemoves | src/main/java/net/fabricmc/example/lua/LuaManager.java:96-111 | after createLuaState every removed name and string.dump read as nil, while collectgarbage from the base library is still there |
| LuaManager.SetupLog | src/main/java/net/fabricmc/example/lua/LuaManager.java:58-72 | log and print are both bound to the logging function; every other global, the limit and the libraries are kept |
| LuaManager.TypeNameAt | src/main/java/net/fabricmc/example/lua/LuaManager.java:64 | a position past the arguments is named "no value"; any other by its value's type |
| LuaManager.LogMessage | src/main/java/net/fabricmc/example/lua/LuaManager.java:59-66 | the logged line starts with the header, followed by the first argument as a string when it is one (or a number), and otherwise its type name in brackets |
| LuaManager.LogMessageRecovers | src/main/java/net/fabricmc/example/lua/LuaManager.java:59-66 | the text after the header gives back a string argument, and the bracketed type of anything else |
| LuaManager.RunSource | src/main/java/net/fabricmc/example/lua/LuaManager.java:44-53 | the chunk is called iff it loads; nothing is reported iff both load and call succeed; a load error is the one reported; no error escapes |
| LuaManager.Lower | src/main/java/net/fabricmc/example/lua/LuaManager.java:121-122 | lower-casing keeps the length and lowers each character on its own |
| LuaManager.LowerChar | src/main/java/net/fabricmc/example/lua/LuaManager.java:121-122 | an upper-case ASCII letter maps to its lower-case letter and every other character to itself |
| LuaManager.PlatformOf | src/main/java/net/fabricmc/example/lua/LuaManager.java:121-137 | an os.name containing "win" in any case is Windows; otherwise one containing "mac" is Mac; anything else is Linux |
| LuaManager.NativeName | src/main/java/net/fabricmc/example/lua/LuaManager.java:121-157 | the extension is .dll iff os.name contains "win"; the name starts with "lib" exactly for Windows; the name ends in the 64-bit architecture iff os.arch ends with "64" |
| LuaManager.NativeNameInjective | src/main/java/net/fabricmc/example/lua/LuaManager.java:121-157 | two property pairs give the same library file exactly when they classify as the same platform and word size |
| LuaManager.WindowsFirst | src/main/java/net/fabricmc/example/lua/LuaManager.java:121-157 | an os.name mentioning both "win" and "mac" gets the Windows name and extension |
| EventsApi.AddTo | src/main/java/net/fabricmc/example/lua/api/EventsApi.java:7-33 | `events` holds exactly the channels `tick` and `render`, each an empty table carrying the shared channel metatable, and `events` itself has no metatable |
| EventsApi.Get | src/main/java/net/fabricmc/example/lua/api/EventsApi.java:49-51 | reading an integer key gives the registered handler or nil; a string key resolves to a function exactly when it names `register`, `clear` or `invoke` |
| EventsApi.Assign | src/main/java/net/fabricmc/example/lua/api/EventsApi.java:39-43 | assigning to a key the channel does not already hold raises "Cannot modify values in event!"; otherwise the write is raw and the metatable is kept |
| EventsApi.Register | src/main/java/net/fabricmc/example/lua/api/EventsApi.java:54-63 | a missing table fails on argument 1, a non-function on argument 2; otherwise the handler lands in the first free slot after the border and nothing else changes |
| EventsApi.Clear | src/main/java/net/fabricmc/example/lua/api/EventsApi.java:67-72 | as written, `clear` checks its argument and returns the very same channel: no handler is removed |
| EventsApi.ClearIntended | src/main/java/net/fabricmc/example/lua/api/EventsApi.java:67-72 | the corrected `clear` leaves the channel with no slots and its metatable intact |
| EventsApi.InvokeFrom | src/main/java/net/fabricmc/example/lua/api/EventsApi.java:82-92 | the loop makes at most one call per remaining index, exactly one per index when no handler raises, at least one when one does, each call receiving the extra arguments, and keeps the metatable |
| EventsApi.Invoke | src/main/java/net/fabricmc/example/lua/api/EventsApi.java:76-94 | a missing table fails on argument 1; otherwise at most `n` calls are made, where `n` is the length read once before the loop, and exactly `n` when no handler raises |
| EventsApi.InvokeCallsInOrder | src/main/java/net/fabricmc/example/lua/api/EventsApi.java:82-92 | when slots `i..n` all hold functions that return normally and leave the channel alone, the loop raises nothing, keeps the channel, and its k-th call is to slot `i + k` with the extra arguments |
| EventsApi.InvokeStopsAtNonFunction | src/main/java/net/fabricmc/example/lua/api/EventsApi.java:82-92 | when slot `j` is the first in `i..n` that holds no function (a hole, or a value written over a handler), the loop calls `i..j` and stops at `j` with Lua's "attempt to call a … value" error, skipping the rest |
| EventsApi.HoleStopsInvoke | src/main/java/net/fabricmc/example/lua/api/EventsApi.java:84-91 | after registering two handlers and then `events.tick[1] = nil`, both 0 and 2 are borders: at 2, `invoke` raises "attempt to call a nil value" on its first call, and at 0 it calls nothing |
| EventsApi.RegisteredDuringInvokeNotCalled | src/main/java/net/fabricmc/example/lua/api/EventsApi.java:79-80 | because the length is read once, a handler registered while the loop runs is never called in that `invoke` |
| EventsApi.ErrorSkipsRest | src/main/java/net/fabricmc/example/lua/api/EventsApi.java:91 | when a handler raises, the error ends `invoke` after that single call and the later handlers are skipped |
| EventsApi.DenseBorder | src/main/java/net/fabricmc/example/lua/api/EventsApi.java:61 | on a channel filled by `register` alone, the length operator has exactly one answer |
| EventsApi.RegisterExtends | src/main/java/net/fabricmc/example/lua/api/EventsApi.java:61 | registering on such a channel keeps its slots contiguous from 1, one longer, with the new handler last |
| EventsApi.RegisterAll | src/main/java/net/fabricmc/example/lua/api/EventsApi.java:54-63 | registering a list of handlers fills slots `1..n` with them in order |
| EventsApi.RegisterThenInvoke | src/main/java/net/fabricmc/example/lua/api/EventsApi.java:54-94 | handlers registered on a fresh channel are invoked in registration order, each with the extra arguments |
| EventsApi.InvokeDense | src/main/java/net/fabricmc/example/lua/api/EventsApi.java:76-94 | invoking a channel whose slots `1..n` hold a list of functions that return normally calls exactly that list, in order |
| EventsApi.ClearKeepsHandlers | src/main/java/net/fabricmc/example/lua/api/EventsApi.java:67-72 | as written, on a channel filled by `register`, the `invoke` after `clear` still calls every registered handler in order, with no error |
| EventsApi.ClearIntendedEmpties | src/main/java/net/fabricmc/example/lua/api/EventsApi.java:67-72 | after the corrected `clear` the only border is 0 and the next `invoke` calls nothing |
| EventsApi.WriteGuard | src/main/java/net/fabricmc/example/lua/api/EventsApi.java:39-47 | writing a new string key raises the modify error and `getmetatable` answers `false` |
| Vector3Script.DivideBy | src/main/java/net/fabricmc/example/math/Vector3.java:42-44 | when the divisor has no zero component, multiplying the quotient back by it gives the dividend |
| Vector3Script.ModBy | src/main/java/net/fabricmc/example/math/Vector3.java:46-48 | when the divisor has no zero component, the result is the componentwise Java remainder |
| Vector3Script.IndexKey | src/main/java/net/fabricmc/example/math/Vector3.java:165-178 | `1`/`x`/`r`, `2`/`y`/`g` and `3`/`z`/`b` read the components, the three function names give their functions, and every other key gives nil |
| Vector3Script.Show | src/main/java/net/fabricmc/example/math/Vector3.java:94-96 | `__tostring` produces a brace-delimited text at least six characters long |
| Vector3Script.Invoke | src/main/java/net/fabricmc/example/math/Vector3.java:126-191 | a handler exists exactly for the ten provided metamethods; `__newindex` always raises "Cannot set values in a vector!", `__len` is 3, and a successful arithmetic metamethod yields a vector |
| Vector3Script.CallFunction | src/main/java/net/fabricmc/example/math/Vector3.java:102-120 | `length` succeeds exactly when argument 1 is a vector, `dot` and `cross` when arguments 1 and 2 are; then they give the dot and cross products |
| Vector3Script.MulDispatch | src/main/java/net/fabricmc/example/math/Vector3.java:136-147 | a number on either side of `*` scales the vector, two vectors multiply componentwise, and a right operand that is nil, a boolean or another vector type fails on argument 2, as does the non-numeric string "a" |
| Vector3Script.DivDispatch | src/main/java/net/fabricmc/example/math/Vector3.java:148-156 | `v / k` scaled back by `k` and `v / w` multiplied back by `w` both restore `v` |
| Vector3Script.ScaleBack | src/main/java/net/fabricmc/example/math/Vector3.java:54-56 | scaling by a number and then by its reciprocal restores the vector |
| Vector3Script.AddThenSub | src/main/java/net/fabricmc/example/math/Vector3.java:128-135 | adding and then subtracting the same vector through the metamethods restores the original |
| Vector3Script.IndexComponents | src/main/java/net/fabricmc/example/math/Vector3.java:165-178 | the integer keys 1, 2 and 3 read the components as their strings do, `cross` reads the function, and `w` reads nil |
| Vector3Script.NoEquality | src/main/java/net/fabricmc/example/math/Vector3.java:190 | equality, ordering, negation and concatenation get no handler |
| Vector3Script.ScriptCross | src/main/java/net/fabricmc/example/math/Vector3.java:114-119 | `cross` called from a script is orthogonal to both operands and changes sign when they swap |
| AvatarStates.Setup | src/main/java/net/fabricmc/example/avatars/AvatarState.java:28-33 | a script is set up exactly when a Lua source is given: four steps, creating the Lua state first and running the source last |
| AvatarStates.Finish | src/main/java/net/fabricmc/example/avatars/AvatarState.java:26-33 | a deserialization failure escapes unchanged; otherwise the state exists exactly when a transform texture for the last leaf index + 1 can be made, and it keeps the owner, the built tree, that texture and a Lua state exactly when a source is given |
| AvatarStates.TransformsFitLeaves | src/main/java/net/fabricmc/example/avatars/AvatarState.java:22-34 | from a fresh build state, a constructed avatar's leaf texture indices are `0..k-1` and its transform texture has room for all `k` |
| AvatarStates.FinishedTransforms | src/main/java/net/fabricmc/example/avatars/AvatarState.java:25-26 | a finished state holds the deserialized tree and the texture sized for its `k` matrices |
| AvatarStates.CapacityCovers | src/main/java/net/fabricmc/example/avatars/AvatarState.java:26 | the transform texture made for `n` matrices holds at least `n` |
| AvatarStates.Render | src/main/java/net/fabricmc/example/avatars/AvatarState.java:68-83 | without a Lua state rendering fails with a null dereference; a script error escapes; otherwise the frame begins with the `render` event carrying the tick delta, and it completes exactly when every upload of the pass returns |
| AvatarStates.Replay | src/main/java/net/fabricmc/example/rendering/textures/TransformTexture.java:70-96 | the pass's uploads as written: the longest prefix of uploads that each return, and whether all did; a stop is at an upload whose range crosses a row |
| AvatarStates.Draw | src/main/java/net/fabricmc/example/avatars/AvatarState.java:70-82 | the pass runs with the 1/16 scale matrix and no buffer; the frame completes exactly when every upload returns, and then the uploads are issued in order, followed by the shader, the model-view matrix, texture unit 1 and the avatar draw, and the state keeps the refreshed tree; otherwise the frame hangs at the first upload that crosses a row |
| AvatarStates.DrawIntended | src/main/java/net/fabricmc/example/avatars/AvatarState.java:70-82 | with the corrected `uploadData` every frame completes: the pass's uploads in order, then the shader, the model-view matrix, texture unit 1 and the avatar draw |
| AvatarStates.Tick | src/main/java/net/fabricmc/example/avatars/AvatarState.java:36-49 | without a Lua state ticking fails with a null dereference; a script error escapes; otherwise `tick` is invoked with no extra arguments |
| AvatarStates.Close | src/main/java/net/fabricmc/example/avatars/AvatarState.java:85-88 | the transform texture is always closed first, and closing fails with a null dereference exactly when there is no Lua state |
| AvatarStates.RenderIntended | src/main/java/net/fabricmc/example/avatars/AvatarState.java:68-83 | the corrected rendering: a scriptless avatar skips the script event and draws with the corrected upload; a script error escapes; otherwise it succeeds |
| AvatarStates.ScriptlessCannotRender | src/main/java/net/fabricmc/example/avatars/AvatarState.java:28-33 | an avatar constructed without a script can never render, tick or close cleanly, while the corrected rendering succeeds |
| AvatarStates.RenderIntendedAgrees | src/main/java/net/fabricmc/example/avatars/AvatarState.java:68-69 | with a Lua state the corrected rendering fails exactly when the written one does, agrees with every frame the written one completes, and extends the events of a frame the written one hangs in |
| AvatarStates.RenderOrder | src/main/java/net/fabricmc/example/avatars/AvatarState.java:68-83 | with a Lua state and no script error a render succeeds; a completed frame runs the script event, then exactly the pass's uploads in order, draws the avatar last and keeps the tree the pass produced |
| AvatarStates.ScriptErrorStopsFrame | src/main/java/net/fabricmc/example/avatars/AvatarState.java:69 | a script error in the event stops the frame and the tick before anything is uploaded or drawn |
| AvatarStates.FirstFrameUpload | src/main/java/net/fabricmc/example/avatars/FiguaModelPart.java:164-177 | the first frame of an avatar built from a fresh state uploads its whole tree in one call: range 0..k-1 for its k leaves, holding (last - first + 1)·16 floats |
| AvatarStates.FirstFrameHangsBeyondOneRow | src/main/java/net/fabricmc/example/rendering/textures/TransformTexture.java:77-92 | the first frame of a scripted avatar built from a fresh state completes exactly when its k leaves fit one 64-matrix row; beyond that it hangs after the script event, while the corrected rendering succeeds |
| AvatarStates.OneUploadFrame | src/main/java/net/fabricmc/example/rendering/textures/TransformTexture.java:77-92 | a frame whose pass makes one upload of 0..k-1 completes exactly when k is at most 64, and a hung frame holds only the script event |
| Avatars.Complete | src/main/java/net/fabricmc/example/avatars/Avatar.java:45-47 | the avatar becomes ready and its states, model and script are untouched |
| Avatars.Fill | src/main/java/net/fabricmc/example/avatars/Avatar.java:52-58 | the avatar becomes ready holding exactly the given model and script, with its states untouched |
| Avatars.Instantiate | src/main/java/net/fabricmc/example/avatars/Avatar.java:64-69 | an unready avatar throws the not-ready exception, a ready one with no model a null dereference, and a failed construction escapes without recording anything; a success records the new state under its owner, holding the tree deserialized from the stored model and the stored script's setup |
| Avatars.GetStateFor | src/main/java/net/fabricmc/example/avatars/Avatar.java:77-82 | a recorded state is answered as it is, with nothing changed; otherwise the avatar is instantiated for the entity |
| Avatars.StateForIsStable | src/main/java/net/fabricmc/example/avatars/Avatar.java:77-82 | once a state was answered, asking again returns the same state and changes nothing, whatever the build state |
| Avatars.StateForKeepsOthers | src/main/java/net/fabricmc/example/avatars/Avatar.java:64-82 | asking changes at most the asking entity's entry, never readiness, model or script, and keeps every state recorded under its own entity |
| Avatars.UnfilledAvatars | src/main/java/net/fabricmc/example/avatars/Avatar.java:45-69 | a new avatar refuses with the not-ready exception; one completed without a fill fails on its null model |
| Avatars.FillMakesInstantiable | src/main/java/net/fabricmc/example/avatars/Avatar.java:52-69 | after a fill, asking for a new entity's state gives exactly what constructing from the filled model and script gives, owned by that entity, with a Lua state exactly when a script was given |
| Avatars.StatesFor | src/main/java/net/fabricmc/example/management/AvatarStateManager.java:44-52 | the loop only adds states to the avatars, and on success every ready listed avatar has a state for the entity and the answer is those states in list order |
| Avatars.AskFirst | src/main/java/net/fabricmc/example/management/AvatarStateManager.java:47-52 | a ready first avatar is asked, then the rest; on success the answer is the reference list of states in order |
| Avatars.Ask | src/main/java/net/fabricmc/example/management/AvatarStateManager.java:48-49 | an avatar that already has the entity's state answers it without changing anything; a new state is recorded in the avatar it came from |
| Avatars.CollectGrows | src/main/java/net/fabricmc/example/management/AvatarStateManager.java:47-52 | avatars gaining states keep the states already collected, so the reference answer is unchanged |
| Avatars.CollectOwned | src/main/java/net/fabricmc/example/management/AvatarStateManager.java:47-52 | every state in the reference answer belongs to the entity asked about |
| Avatars.StatesForKnown | src/main/java/net/fabricmc/example/management/AvatarStateManager.java:47-52 | when every ready listed avatar already has the entity's state, the loop changes nothing and answers the reference list |
| Avatars.AddDeckTo | src/main/java/net/fabricmc/example/management/AvatarStateManager.java:28-30 | the entity gets the given deck, every other entity keeps its deck, and the remembered answers are untouched |
| Avatars.GetStatesFor | src/main/java/net/fabricmc/example/management/AvatarStateManager.java:38-61 | a remembered answer is returned unchanged; an entity without a deck gets the empty list, remembered; otherwise it gets the states of its deck's ready avatars in order, all owned by it, remembered exactly when every avatar was ready, and no other entity's memory changes |
| Avatars.Decide | src/main/java/net/fabricmc/example/management/AvatarStateManager.java:53-57 | the answer is remembered only when it succeeded and no listed avatar was skipped; otherwise the manager is unchanged |
| Avatars.GetStatesForPlayer | src/main/java/net/fabricmc/example/management/AvatarStateManager.java:69-72 | a player is answered as an entity, so a remembered answer for the player is returned as it is |
| Avatars.CachedSurvivesNewDeck | src/main/java/net/fabricmc/example/management/AvatarStateManager.java:28-39 | giving an entity a new deck does not replace its remembered answer |
| Avatars.NoDeckRemembered | src/main/java/net/fabricmc/example/management/AvatarStateManager.java:39-42 | an entity without a deck gets the empty list, and the next call answers it from memory |
| Avatars.RepeatAgrees | src/main/java/net/fabricmc/example/management/AvatarStateManager.java:38-61 | asking twice gives the same list and leaves the avatars as the first call left them, whether or not the first answer was remembered |
| Cards.NewDeck | src/main/java/net/fabricmc/example/management/cards/CardDeck.java:25-27 | a new deck is a 3 by 4 grid with the given card in the first row and first column, every other slot empty, and nothing remembered |
| Cards.Column | src/main/java/net/fabricmc/example/management/cards/CardDeck.java:38-41 | a column lists the slots of one grid column, top row first |
| Cards.FirstSomeIsTopmost | src/main/java/net/fabricmc/example/management/cards/CardDeck.java:39-43 | the scan of a column answers an avatar exactly when that avatar's card has only empty slots above it |
| Cards.FirstSomeAt | src/main/java/net/fabricmc/example/management/cards/CardDeck.java:39-43 | a scan that stops at row `y` with nothing above it has found the topmost card, or none when it ran off the bottom |
| Cards.Tops | src/main/java/net/fabricmc/example/management/cards/CardDeck.java:38-44 | the reference answer has at most one avatar per column looked at |
| Cards.Lookup | src/main/java/net/fabricmc/example/management/cards/CardDeck.java:35-47 | `getAvatars` leaves the cards alone and remembers its answer; on a deck whose memory agrees with its cards the answer is the topmost card of each column |
| Cards.SameCards | src/main/java/net/fabricmc/example/management/cards/CardDeck.java:36-44 | the answer depends on the cards only, not on what was remembered |
| Cards.LookupIn | src/main/java/net/fabricmc/example/management/cards/CardDeck.java:35-47 | every avatar answered is one of the avatars the deck's cards name |
| Cards.GetAvatars | src/main/java/net/fabricmc/example/management/cards/CardDeck.java:35-47 | a remembered answer is returned unchanged; otherwise the loop finds each column's topmost card, in column order, and remembers that list, so at most four avatars are answered |
| Cards.TopsAreTopmost | src/main/java/net/fabricmc/example/management/cards/CardDeck.java:38-44 | each avatar answered is the topmost card of some column |
| Cards.TopsCount | src/main/java/net/fabricmc/example/management/cards/CardDeck.java:38-44 | the answer has exactly one avatar per column holding a card |
| Cards.SingleCardDeck | src/main/java/net/fabricmc/example/management/cards/CardDeck.java:21-27 | a deck made from one card answers exactly that card's avatar |
| Cards.Complete | src/main/java/net/fabricmc/example/management/cards/CardMetadata.java:20-22 | the metadata becomes ready and the stored back, background and script are untouched |
| Cards.Fill | src/main/java/net/fabricmc/example/management/cards/CardMetadata.java:28-32 | the three fields are stored as given and readiness is left as it was |
| Cards.BackNamed | src/main/java/net/fabricmc/example/management/cards/CardMetadata.java:39 | looking up a card back by name succeeds exactly for `TEST`, a null name is a null dereference, and any other name is an illegal argument whose message names the constant under the canonical enum class name |
| Cards.BackgroundNamed | src/main/java/net/fabricmc/example/management/cards/CardMetadata.java:39 | looking up a card background by name succeeds exactly for `TEST`, a null name is a null dereference, and any other name is an illegal argument whose message names the constant under the canonical enum class name |
| Cards.FillNamed | src/main/java/net/fabricmc/example/management/cards/CardMetadata.java:38-43 | filling by names succeeds exactly when both name `TEST`, reports the back's failure first, and then stores both constants and the script |
| Cards.GetCardBack | src/main/java/net/fabricmc/example/management/cards/CardMetadata.java:45-49 | an unready card answers `TEST`, a ready one whatever was stored, null included |
| Cards.GetCardBackground | src/main/java/net/fabricmc/example/management/cards/CardMetadata.java:51-55 | an unready card answers `TEST`, a ready one whatever was stored, null included |
| Cards.FillAll | src/main/java/net/fabricmc/example/management/cards/CardMetadata.java:28-32 | repeated fills never change readiness, and the last fill's back and background are the ones kept |
| Cards.GettersGatedByReadiness | src/main/java/net/fabricmc/example/management/cards/CardMetadata.java:20-55 | whatever is filled, the getters answer `TEST` until `complete`, then the last fill, and later fills show through |
| Cards.NullAfterComplete | src/main/java/net/fabricmc/example/management/cards/CardMetadata.java:35-49 | a completed card filled with a null back answers null rather than `TEST`, and the two-argument fill stores no script |
| Providers.Attempt | src/main/java/net/fabricmc/example/management/providers/MemoryCacheAvatarStateProviderLayer.java:13-15 | the memory cache supplies a state exactly when it remembers a non-null one for the entity, and then it is that one |
| Providers.Handled | src/main/java/net/fabricmc/example/management/providers/MemoryCacheAvatarStateProviderLayer.java:18-20 | being told an answer makes the memory cache remember exactly that answer for the entity, null included, and nothing else; a plain layer is unchanged |
| Providers.HandleAt | src/main/java/net/fabricmc/example/management/providers/AvatarStateProviderLayer.java:39 | telling layer `i` the answer changes that layer alone and none of the links |
| Providers.GetFor | src/main/java/net/fabricmc/example/management/providers/AvatarStateProviderLayer.java:35-41 | a layer that supplies a state answers it and is told it; a layer that misses with no next layer answers null; the links never change and the asking layer is told last |
| Providers.Path | src/main/java/net/fabricmc/example/management/providers/AvatarStateProviderLayer.java:36-38 | a lookup visits the asking layer first and then only layers further along the links, each at most once |
| Providers.LookupAnswersFirstHit | src/main/java/net/fabricmc/example/management/providers/AvatarStateProviderLayer.java:35-41 | on links without cycles, a lookup with enough fuel returns the first state supplied along the links, tells every visited layer that answer once, deepest first, and leaves every other layer alone |
| Providers.LookupStep | src/main/java/net/fabricmc/example/management/providers/AvatarStateProviderLayer.java:36-39 | a miss at a layer passes the answer of the next layer up and then tells the layer itself |
| Providers.VisitedCachesRemember | src/main/java/net/fabricmc/example/management/providers/AvatarStateProviderLayer.java:35-41 | every memory cache on the lookup's path remembers the final answer for the entity, and every cache off the path is unchanged |
| Providers.MemoryHitIsQuiet | src/main/java/net/fabricmc/example/management/providers/MemoryCacheAvatarStateProviderLayer.java:13-20 | a memory cache that already remembers the entity's state answers at once and leaves the whole chain as it was |
| Providers.SelfLoopNeverReturns | src/main/java/net/fabricmc/example/management/providers/AvatarStateProviderLayer.java:10-12 | a layer set as its own next that misses never returns, as the Java recursion overflows the stack |
| Providers.Attach | src/main/java/net/fabricmc/example/management/providers/AvatarStateProvider.java:33-40 | the new layer becomes the last, linked from the previous last layer, or becomes the first when it is the only one; no other link changes |
| Providers.AttachAllIsStraight | src/main/java/net/fabricmc/example/management/providers/AvatarStateProvider.java:33-40 | attaching layers one after another to a new builder links them in attach order, first to last |
| Providers.AttachKeepsStraight | src/main/java/net/fabricmc/example/management/providers/AvatarStateProvider.java:33-40 | attaching to a chain linked straight through keeps it linked straight through, with the new layer last |
| Providers.GetAvatarFor | src/main/java/net/fabricmc/example/management/providers/AvatarStateProvider.java:17-20 | a provider with no layer fails with a null dereference; otherwise it answers the first state supplied along the links from the first layer |
| Providers.StraightFirstHit | src/main/java/net/fabricmc/example/management/providers/AvatarStateProviderLayer.java:36-38 | on a chain linked straight through, the first state supplied along the links is the first supplied by the layers in order |
| Providers.BuiltProviderAnswers | src/main/java/net/fabricmc/example/management/providers/AvatarStateProvider.java:13-44 | a provider built from layers answers the first state any of them supplies, asking them in attach order, and fails when built from none |

## Left out

- OpenGL state: texture, VAO and shader objects, bind and delete calls, and `Avatar.render`/`close`. Uploads and draws are recorded as events in order.
- IEEE floating point: all vector and matrix arithmetic is over the reals. Several operations are parameters (`Env`, `FloatCodec`): sine, cosine, the `(float)` cast, `Float.floatToIntBits`/`intBitsToFloat`, `Math.rint`, `Math.pow`, `Math.sqrt`, `Double.toString`, and division and remainder by zero.
- The Lua virtual machine: stack manipulation, loading and calling code, and memory accounting. A script's outcome and a handler's effect are parameters. The border `rawLen` answers is an argument. The contents of each standard library are the `libs` parameter.
- ModelPart.Builder: a part left pending by a failed build is kept as its constructor returned it, without the children attached to it before the failure. Only its own fields are ever read through the element array, and those are kept.
- Lua's coercion of numeric strings to numbers: only numbers count as numbers in argument checks.
- EventsApi: calling a value is the `Handler` parameter. `Passive` constrains only calls to functions. `NonFunctionsRaise` says a call to any other value raises Lua's call error, as no value here carries a `__call` metamethod. Lemmas about whole channels ask for function slots, or take both predicates.
- BBModelSerializer: an element object is taken without a `children` key. `processParts` would process `children` on an element too, before its cuboid, and produce a group that also carries a cuboid; Blockbench does not write such files.
- Vector3Script.MulDispatch: states nothing about string operands in general. `isNumber` accepts a numeric string, which this model does not coerce, so only a non-numeric string is stated to fail.
- Which operand JNLua takes `this` from when dispatching a Vector3 metamethod: a handler is modelled as a function of its supplying vector and the arguments.
- JSON and NBT parsing: the serializer and the deserializers take already-parsed records.
- ScriptDeserializer, FiguaTextureDeserializer and the NBT wrappers are thin type-checking shims and are not part of this model.
- AvatarDeserializer and ErrorAvatarStateProviderLayer do file I/O, and they call Avatar members that the Avatar class shown does not have.
- File I/O and bootstrapping: the native library file copy in `setupLuaNatives`, `NativeSupport` loading, asset paths and shader loading. Only the library-name rule is modelled.
- Minecraft-dependent math: `entityToWorldMatrix`, `worldToViewMatrix`, conversions to and from Minecraft matrices, and `getCurrentFov`.
- Asynchrony: card filling off the render thread, and `complete()` racing with `fill`.
- GUI, mixins and marker interfaces.
- RenderUtils.GetProjection: takes the field of view as one input. The source reads `getCurrentFov` twice, once for the comparison and once for the projection, and the model assumes both reads agree.
- LuaManager.Lower: lowercases ASCII letters only; `String.toLowerCase` on the operating system name is locale and Unicode aware.
- TransformTex.Create: requires the wrapped `4n` to be at most 2^30. Above that, `nextPowerOfTwo` never returns, and a call that never returns has no result to state. `AvatarStates.Sized`, `Buildable` and `Avatars.Loadable` carry the same bound up to the avatar level.
- Providers.GetFor: takes a `fuel` bound on the depth of the recursion. Running out of fuel answers "never returns", which is what Java does (by a stack overflow) on a cyclic chain. On an acyclic chain, fuel equal to the chain's length always suffices (`LookupAnswersFirstHit`).
- Providers: a layer is either the memory cache or a plain layer with a pure attempt and a no-op handler. Each attach adds a new node. Attaching the same layer object twice is therefore not modelled; in Java it links that layer to itself, the case `SelfLoopNeverReturns` states.
- Vector3Script.Show: the digits come from `Double.toString`, a parameter. Only the brace-delimited shape of the text is stated.
- Cards: decks share avatars by index. Java's aliasing of one `CardDeck` object between entities is modelled by deck identifiers in the world value.

## Findings

| source | as written | input that shows it | evidently intended | confidence | as-written member | corrected member |
|---|---|---|---|---|---|---|
| src/main/java/net/fabricmc/example/rendering/textures/TransformTexture.java:78 | the row end is computed from `firstIndex` instead of the current `startCopy` | `uploadData(0, 64, buf)`: the second pass computes `endCopy = 63 < startCopy = 64`, copies nothing and never advances, so the loop never exits; a scripted avatar with 65 geometry parts therefore hangs in its first frame | each pass copies from `startCopy` to the end of its own row, as the comment "one row at a time" says | not executed | AvatarStates.FirstFrameHangsBeyondOneRow | TransformTex.UploadsContiguous |
| src/main/java/net/fabricmc/example/lua/api/EventsApi.java:67-72 | `clear` pushes a new table and replaces stack slot 1 with it, which leaves the channel itself untouched | register one handler on `events.tick`, call `events.tick:clear()`, then `invoke`: the handler still runs | `clear` removes every registered handler from the channel | not executed | EventsApi.ClearKeepsHandlers | EventsApi.ClearIntendedEmpties |
| src/main/java/net/fabricmc/example/avatars/FiguaModelPart.java:193-199 | `setTransform` raises only the texture flag, so a transform update left pending by the constructor's `setRot`/`setPivot` overwrites the direct matrix at the next pass | a part deserialized with `visibility` false: its zero-scale matrix is replaced by the identity in its first pass, and the part is drawn | the direct matrix stays until a TRS setter runs, so invisible parts stay hidden | not executed | PreRender.InvisiblePartReappears | ModelPart.NewPartIntended |
| src/main/java/net/fabricmc/example/avatars/FiguaModelPart.java:305-309 | `__newindex` fires only for absent keys, so a script can overwrite a present key, including `FIGUA_RESERVED_INDEX_KEY` | on a fresh model with a child part `arm`, the script `model.arm.FIGUA_RESERVED_INDEX_KEY = 0; model.arm:setRot(v)` rotates the root part (Lua index 0) instead of `arm` | part tables cannot be edited, so each keeps resolving to its own part | not executed | PartTables.ReservedKeyRedirects | PartTables.IntendedTablesStayBound |
| src/main/java/net/fabricmc/example/avatars/AvatarState.java:68-69 | `render` calls `luaRender` unconditionally, and `luaState` is null when the avatar has no script | an avatar filled with a model and a null script: its first `render` throws a NullPointerException before anything is drawn | a scriptless avatar skips the script event and is drawn | not executed | AvatarStates.ScriptlessCannotRender | AvatarStates.RenderIntended |
