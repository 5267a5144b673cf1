/**
 * The 4x4 matrix record, column by column as in the source, with the same
 * reversed multiplication convention as `Mat3`: `a.Multiply(b)` is `b·a`.
 * Sine and cosine are abstracted: the rotations take `s` and `c` directly.
 */
module Mat4 {
  import opened Vectors
  import Mat3

  datatype Matrix4 = Matrix4(a11: real, a21: real, a31: real, a41: real,
                             a12: real, a22: real, a32: real, a42: real,
                             a13: real, a23: real, a33: real, a43: real,
                             a14: real, a24: real, a34: real, a44: real)
  {
    /** The entry in row i, column j (1-based); 0 outside the matrix. */
    function At(i: int, j: int): real {
      if j == 1 then (if i == 1 then a11 else if i == 2 then a21 else if i == 3 then a31 else if i == 4 then a41 else 0.0)
      else if j == 2 then (if i == 1 then a12 else if i == 2 then a22 else if i == 3 then a32 else if i == 4 then a42 else 0.0)
      else if j == 3 then (if i == 1 then a13 else if i == 2 then a23 else if i == 3 then a33 else if i == 4 then a43 else 0.0)
      else if j == 4 then (if i == 1 then a14 else if i == 2 then a24 else if i == 3 then a34 else if i == 4 then a44 else 0.0)
      else 0.0
    }

    /** Left-multiplies this matrix by `other`: the result is `other·this`. */
    function Multiply(other: Matrix4): Matrix4 {
      Matrix4(
        other.a11 * a11 + other.a12 * a21 + other.a13 * a31 + other.a14 * a41,
        other.a21 * a11 + other.a22 * a21 + other.a23 * a31 + other.a24 * a41,
        other.a31 * a11 + other.a32 * a21 + other.a33 * a31 + other.a34 * a41,
        other.a41 * a11 + other.a42 * a21 + other.a43 * a31 + other.a44 * a41,

        other.a11 * a12 + other.a12 * a22 + other.a13 * a32 + other.a14 * a42,
        other.a21 * a12 + other.a22 * a22 + other.a23 * a32 + other.a24 * a42,
        other.a31 * a12 + other.a32 * a22 + other.a33 * a32 + other.a34 * a42,
        other.a41 * a12 + other.a42 * a22 + other.a43 * a32 + other.a44 * a42,

        other.a11 * a13 + other.a12 * a23 + other.a13 * a33 + other.a14 * a43,
        other.a21 * a13 + other.a22 * a23 + other.a23 * a33 + other.a24 * a43,
        other.a31 * a13 + other.a32 * a23 + other.a33 * a33 + other.a34 * a43,
        other.a41 * a13 + other.a42 * a23 + other.a43 * a33 + other.a44 * a43,

        other.a11 * a14 + other.a12 * a24 + other.a13 * a34 + other.a14 * a44,
        other.a21 * a14 + other.a22 * a24 + other.a23 * a34 + other.a24 * a44,
        other.a31 * a14 + other.a32 * a24 + other.a33 * a34 + other.a34 * a44,
        other.a41 * a14 + other.a42 * a24 + other.a43 * a34 + other.a44 * a44)
    }
  }

  /** Builds a matrix from its entries, `f(i, j)` being row i, column j. */
  function FromEntries(f: (int, int) -> real): (m: Matrix4)
    ensures forall i, j :: 1 <= i <= 4 && 1 <= j <= 4 ==> m.At(i, j) == f(i, j)
  {
    Matrix4(f(1, 1), f(2, 1), f(3, 1), f(4, 1), f(1, 2), f(2, 2), f(3, 2), f(4, 2),
            f(1, 3), f(2, 3), f(3, 3), f(4, 3), f(1, 4), f(2, 4), f(3, 4), f(4, 4))
  }

  /** Row i of `a` times column j of `b`. */
  function RowCol(a: Matrix4, b: Matrix4, i: int, j: int): real {
    a.At(i, 1) * b.At(1, j) + a.At(i, 2) * b.At(2, j) + a.At(i, 3) * b.At(3, j) + a.At(i, 4) * b.At(4, j)
  }

  /** The textbook matrix product `a·b`, the reference for `Multiply`. */
  function Product(a: Matrix4, b: Matrix4): Matrix4 {
    FromEntries((i, j) => RowCol(a, b, i, j))
  }

  /** `Multiply` is the textbook product with its operands swapped. */
  lemma MultiplyIsReversedProduct(a: Matrix4, b: Matrix4)
    ensures a.Multiply(b) == Product(b, a)
  {
  }

  const IDENTITY := Matrix4(1.0, 0.0, 0.0, 0.0, 0.0, 1.0, 0.0, 0.0, 0.0, 0.0, 1.0, 0.0, 0.0, 0.0, 0.0, 1.0)

  /** `new Matrix4(Matrix3)`: the 3x3 matrix in the upper left, 1 in the corner. */
  function Embed(m: Mat3.Matrix3): (r: Matrix4)
    ensures forall i, j :: 1 <= i <= 3 && 1 <= j <= 3 ==> r.At(i, j) == m.At(i, j)
    ensures forall k :: 1 <= k <= 3 ==> r.At(4, k) == 0.0 && r.At(k, 4) == 0.0
    ensures r.At(4, 4) == 1.0
  {
    Matrix4(m.a11, m.a21, m.a31, 0.0,
            m.a12, m.a22, m.a32, 0.0,
            m.a13, m.a23, m.a33, 0.0,
            0.0, 0.0, 0.0, 1.0)
  }

  /** `uploadToBuffer`: the sixteen entries column by column, each through the float cast. */
  function UploadToBuffer(m: Matrix4, toFloat: real -> real): (b: seq<real>)
    ensures |b| == 16
    ensures forall i, j :: 1 <= i <= 4 && 1 <= j <= 4 ==> b[4 * (j - 1) + (i - 1)] == toFloat(m.At(i, j))
  {
    [toFloat(m.a11), toFloat(m.a21), toFloat(m.a31), toFloat(m.a41),
     toFloat(m.a12), toFloat(m.a22), toFloat(m.a32), toFloat(m.a42),
     toFloat(m.a13), toFloat(m.a23), toFloat(m.a33), toFloat(m.a43),
     toFloat(m.a14), toFloat(m.a24), toFloat(m.a34), toFloat(m.a44)]
  }

  function Scale(x: real, y: real, z: real): (m: Matrix4)
    ensures forall i, j :: 1 <= i <= 4 && 1 <= j <= 4 && i != j ==> m.At(i, j) == 0.0
    ensures m.At(1, 1) == x && m.At(2, 2) == y && m.At(3, 3) == z && m.At(4, 4) == 1.0
  {
    Matrix4(x, 0.0, 0.0, 0.0, 0.0, y, 0.0, 0.0, 0.0, 0.0, z, 0.0, 0.0, 0.0, 0.0, 1.0)
  }

  function ScaleVec(v: Vector3): Matrix4 {
    Scale(v.x, v.y, v.z)
  }

  /** A translation; the offset sits in the fourth column. */
  function Translate(x: real, y: real, z: real): (m: Matrix4)
    ensures m.At(1, 4) == x && m.At(2, 4) == y && m.At(3, 4) == z
    ensures forall i, j :: 1 <= i <= 4 && 1 <= j <= 3 ==> m.At(i, j) == IDENTITY.At(i, j)
    ensures m.At(4, 4) == 1.0
  {
    Matrix4(1.0, 0.0, 0.0, 0.0, 0.0, 1.0, 0.0, 0.0, 0.0, 0.0, 1.0, 0.0, x, y, z, 1.0)
  }

  function TranslateVec(v: Vector3): Matrix4 {
    Translate(v.x, v.y, v.z)
  }

  /** Rotation about the x axis by an angle whose sine is `s` and cosine `c`. */
  function RotateX(s: real, c: real): Matrix4 {
    Matrix4(1.0, 0.0, 0.0, 0.0, 0.0, c, s, 0.0, 0.0, -s, c, 0.0, 0.0, 0.0, 0.0, 1.0)
  }

  function RotateY(s: real, c: real): Matrix4 {
    Matrix4(c, 0.0, -s, 0.0, 0.0, 1.0, 0.0, 0.0, s, 0.0, c, 0.0, 0.0, 0.0, 0.0, 1.0)
  }

  function RotateZ(s: real, c: real): Matrix4 {
    Matrix4(c, s, 0.0, 0.0, -s, c, 0.0, 0.0, 0.0, 0.0, 1.0, 0.0, 0.0, 0.0, 0.0, 1.0)
  }

  /** `Vector4.multiply(Matrix4)`: the column-vector product `m·v`. */
  function Transform(v: Vector4, m: Matrix4): Vector4 {
    Vector4(m.a11 * v.x + m.a12 * v.y + m.a13 * v.z + m.a14 * v.w,
            m.a21 * v.x + m.a22 * v.y + m.a23 * v.z + m.a24 * v.w,
            m.a31 * v.x + m.a32 * v.y + m.a33 * v.z + m.a34 * v.w,
            m.a41 * v.x + m.a42 * v.y + m.a43 * v.z + m.a44 * v.w)
  }

  /** Row i of `m` times the column vector `v`. */
  function RowDot(m: Matrix4, i: int, v: Vector4): real {
    m.At(i, 1) * v.x + m.At(i, 2) * v.y + m.At(i, 3) * v.z + m.At(i, 4) * v.w
  }

  /** Each component of `Transform(v, m)` is the matching row of `m` against `v`. */
  lemma TransformIsRowDot(v: Vector4, m: Matrix4)
    ensures Transform(v, m).x == RowDot(m, 1, v) && Transform(v, m).y == RowDot(m, 2, v)
    ensures Transform(v, m).z == RowDot(m, 3, v) && Transform(v, m).w == RowDot(m, 4, v)
  {
  }

  lemma IdentityIsUnit(m: Matrix4)
    ensures m.Multiply(IDENTITY) == m && IDENTITY.Multiply(m) == m
  {
  }

  lemma TranslateComposes(u: Vector3, v: Vector3)
    ensures TranslateVec(u).Multiply(TranslateVec(v)) == TranslateVec(u.Add(v))
  {
  }

  lemma ScaleComposes(u: Vector3, v: Vector3)
    ensures ScaleVec(u).Multiply(ScaleVec(v)) == ScaleVec(u.Multiply(v))
    ensures ScaleVec(ONE3) == IDENTITY
  {
  }

  lemma RotationsAtZeroAngle()
    ensures RotateX(0.0, 1.0) == IDENTITY && RotateY(0.0, 1.0) == IDENTITY && RotateZ(0.0, 1.0) == IDENTITY
  {
  }

  /** The 3x3 rotations are the upper-left blocks of the 4x4 ones. */
  lemma RotationsEmbed(s: real, c: real)
    ensures Embed(Mat3.RotateX(s, c)) == RotateX(s, c)
    ensures Embed(Mat3.RotateY(s, c)) == RotateY(s, c)
    ensures Embed(Mat3.RotateZ(s, c)) == RotateZ(s, c)
    ensures Embed(Mat3.Scale(s, c, s)) == Scale(s, c, s)
    ensures Embed(Mat3.IDENTITY) == IDENTITY
  {
  }

  /** Embedding commutes with multiplication. */
  lemma EmbedMultiply(a: Mat3.Matrix3, b: Mat3.Matrix3)
    ensures Embed(a.Multiply(b)) == Embed(a).Multiply(Embed(b))
  {
  }

  lemma TransformByIdentity(v: Vector4)
    ensures Transform(v, IDENTITY) == v
  {
  }

  /** A point (w = 1) moves by the translation's offset. */
  lemma TransformByTranslate(p: Vector3, t: Vector3)
    ensures Transform(Vector4(p.x, p.y, p.z, 1.0), TranslateVec(t)) == Vector4(p.x + t.x, p.y + t.y, p.z + t.z, 1.0)
  {
  }

  /** One row of `TransformComposes`: regrouping a sum of triple products. */
  lemma RegroupRow(b1: real, b2: real, b3: real, b4: real, a: Matrix4, v: Vector4)
    ensures (b1 * a.a11 + b2 * a.a21 + b3 * a.a31 + b4 * a.a41) * v.x
          + (b1 * a.a12 + b2 * a.a22 + b3 * a.a32 + b4 * a.a42) * v.y
          + (b1 * a.a13 + b2 * a.a23 + b3 * a.a33 + b4 * a.a43) * v.z
          + (b1 * a.a14 + b2 * a.a24 + b3 * a.a34 + b4 * a.a44) * v.w
         == b1 * (a.a11 * v.x + a.a12 * v.y + a.a13 * v.z + a.a14 * v.w)
          + b2 * (a.a21 * v.x + a.a22 * v.y + a.a23 * v.z + a.a24 * v.w)
          + b3 * (a.a31 * v.x + a.a32 * v.y + a.a33 * v.z + a.a34 * v.w)
          + b4 * (a.a41 * v.x + a.a42 * v.y + a.a43 * v.z + a.a44 * v.w)
  {
    Distribute(b1, b2, b3, b4, a.a11, a.a21, a.a31, a.a41, v.x);
    Distribute(b1, b2, b3, b4, a.a12, a.a22, a.a32, a.a42, v.y);
    Distribute(b1, b2, b3, b4, a.a13, a.a23, a.a33, a.a43, v.z);
    Distribute(b1, b2, b3, b4, a.a14, a.a24, a.a34, a.a44, v.w);
    Factor(b1, a.a11 * v.x, a.a12 * v.y, a.a13 * v.z, a.a14 * v.w);
    Factor(b2, a.a21 * v.x, a.a22 * v.y, a.a23 * v.z, a.a24 * v.w);
    Factor(b3, a.a31 * v.x, a.a32 * v.y, a.a33 * v.z, a.a34 * v.w);
    Factor(b4, a.a41 * v.x, a.a42 * v.y, a.a43 * v.z, a.a44 * v.w);
  }

  lemma Distribute(b1: real, b2: real, b3: real, b4: real, a1: real, a2: real, a3: real, a4: real, x: real)
    ensures (b1 * a1 + b2 * a2 + b3 * a3 + b4 * a4) * x == b1 * (a1 * x) + b2 * (a2 * x) + b3 * (a3 * x) + b4 * (a4 * x)
  {
  }

  lemma Factor(b: real, s1: real, s2: real, s3: real, s4: real)
    ensures b * (s1 + s2 + s3 + s4) == b * s1 + b * s2 + b * s3 + b * s4
  {
  }

  /** Row 1 of a product applied to a vector, unfolded. */
  lemma UnfoldRowX(v: Vector4, a: Matrix4, b: Matrix4)
    ensures Transform(v, a.Multiply(b)).x
         == (b.a11 * a.a11 + b.a12 * a.a21 + b.a13 * a.a31 + b.a14 * a.a41) * v.x
          + (b.a11 * a.a12 + b.a12 * a.a22 + b.a13 * a.a32 + b.a14 * a.a42) * v.y
          + (b.a11 * a.a13 + b.a12 * a.a23 + b.a13 * a.a33 + b.a14 * a.a43) * v.z
          + (b.a11 * a.a14 + b.a12 * a.a24 + b.a13 * a.a34 + b.a14 * a.a44) * v.w
  {
  }

  /** Row 2 of a product applied to a vector, unfolded. */
  lemma UnfoldRowY(v: Vector4, a: Matrix4, b: Matrix4)
    ensures Transform(v, a.Multiply(b)).y
         == (b.a21 * a.a11 + b.a22 * a.a21 + b.a23 * a.a31 + b.a24 * a.a41) * v.x
          + (b.a21 * a.a12 + b.a22 * a.a22 + b.a23 * a.a32 + b.a24 * a.a42) * v.y
          + (b.a21 * a.a13 + b.a22 * a.a23 + b.a23 * a.a33 + b.a24 * a.a43) * v.z
          + (b.a21 * a.a14 + b.a22 * a.a24 + b.a23 * a.a34 + b.a24 * a.a44) * v.w
  {
  }

  /** Row 3 of a product applied to a vector, unfolded. */
  lemma UnfoldRowZ(v: Vector4, a: Matrix4, b: Matrix4)
    ensures Transform(v, a.Multiply(b)).z
         == (b.a31 * a.a11 + b.a32 * a.a21 + b.a33 * a.a31 + b.a34 * a.a41) * v.x
          + (b.a31 * a.a12 + b.a32 * a.a22 + b.a33 * a.a32 + b.a34 * a.a42) * v.y
          + (b.a31 * a.a13 + b.a32 * a.a23 + b.a33 * a.a33 + b.a34 * a.a43) * v.z
          + (b.a31 * a.a14 + b.a32 * a.a24 + b.a33 * a.a34 + b.a34 * a.a44) * v.w
  {
  }

  /** Row 4 of a product applied to a vector, unfolded. */
  lemma UnfoldRowW(v: Vector4, a: Matrix4, b: Matrix4)
    ensures Transform(v, a.Multiply(b)).w
         == (b.a41 * a.a11 + b.a42 * a.a21 + b.a43 * a.a31 + b.a44 * a.a41) * v.x
          + (b.a41 * a.a12 + b.a42 * a.a22 + b.a43 * a.a32 + b.a44 * a.a42) * v.y
          + (b.a41 * a.a13 + b.a42 * a.a23 + b.a43 * a.a33 + b.a44 * a.a43) * v.z
          + (b.a41 * a.a14 + b.a42 * a.a24 + b.a43 * a.a34 + b.a44 * a.a44) * v.w
  {
  }

  /** The four components of `Transform(v, m)`, unfolded. */
  lemma TransformRows(v: Vector4, m: Matrix4)
    ensures Transform(v, m).x == m.a11 * v.x + m.a12 * v.y + m.a13 * v.z + m.a14 * v.w
    ensures Transform(v, m).y == m.a21 * v.x + m.a22 * v.y + m.a23 * v.z + m.a24 * v.w
    ensures Transform(v, m).z == m.a31 * v.x + m.a32 * v.y + m.a33 * v.z + m.a34 * v.w
    ensures Transform(v, m).w == m.a41 * v.x + m.a42 * v.y + m.a43 * v.z + m.a44 * v.w
  {
  }

  /** Equal terms may be swapped inside a weighted sum of four. */
  lemma SumSubst(p1: real, p2: real, p3: real, p4: real, q1: real, q2: real, q3: real, q4: real,
                 s1: real, s2: real, s3: real, s4: real)
    requires p1 == q1 && p2 == q2 && p3 == q3 && p4 == q4
    ensures s1 * p1 + s2 * p2 + s3 * p3 + s4 * p4 == s1 * q1 + s2 * q2 + s3 * q3 + s4 * q4
  {
  }

  lemma TransformComposesX(v: Vector4, a: Matrix4, b: Matrix4)
    ensures Transform(v, a.Multiply(b)).x == Transform(Transform(v, a), b).x
  {
    var av := Transform(v, a);
    UnfoldRowX(v, a, b);
    TransformRows(v, a);
    TransformRows(av, b);
    RegroupRow(b.a11, b.a12, b.a13, b.a14, a, v);
    SumSubst(av.x, av.y, av.z, av.w,
             a.a11 * v.x + a.a12 * v.y + a.a13 * v.z + a.a14 * v.w,
             a.a21 * v.x + a.a22 * v.y + a.a23 * v.z + a.a24 * v.w,
             a.a31 * v.x + a.a32 * v.y + a.a33 * v.z + a.a34 * v.w,
             a.a41 * v.x + a.a42 * v.y + a.a43 * v.z + a.a44 * v.w, b.a11, b.a12, b.a13, b.a14);
  }

  lemma TransformComposesY(v: Vector4, a: Matrix4, b: Matrix4)
    ensures Transform(v, a.Multiply(b)).y == Transform(Transform(v, a), b).y
  {
    var av := Transform(v, a);
    UnfoldRowY(v, a, b);
    TransformRows(v, a);
    TransformRows(av, b);
    RegroupRow(b.a21, b.a22, b.a23, b.a24, a, v);
    SumSubst(av.x, av.y, av.z, av.w,
             a.a11 * v.x + a.a12 * v.y + a.a13 * v.z + a.a14 * v.w,
             a.a21 * v.x + a.a22 * v.y + a.a23 * v.z + a.a24 * v.w,
             a.a31 * v.x + a.a32 * v.y + a.a33 * v.z + a.a34 * v.w,
             a.a41 * v.x + a.a42 * v.y + a.a43 * v.z + a.a44 * v.w, b.a21, b.a22, b.a23, b.a24);
  }

  lemma TransformComposesZ(v: Vector4, a: Matrix4, b: Matrix4)
    ensures Transform(v, a.Multiply(b)).z == Transform(Transform(v, a), b).z
  {
    var av := Transform(v, a);
    UnfoldRowZ(v, a, b);
    TransformRows(v, a);
    TransformRows(av, b);
    RegroupRow(b.a31, b.a32, b.a33, b.a34, a, v);
    SumSubst(av.x, av.y, av.z, av.w,
             a.a11 * v.x + a.a12 * v.y + a.a13 * v.z + a.a14 * v.w,
             a.a21 * v.x + a.a22 * v.y + a.a23 * v.z + a.a24 * v.w,
             a.a31 * v.x + a.a32 * v.y + a.a33 * v.z + a.a34 * v.w,
             a.a41 * v.x + a.a42 * v.y + a.a43 * v.z + a.a44 * v.w, b.a31, b.a32, b.a33, b.a34);
  }

  lemma TransformComposesW(v: Vector4, a: Matrix4, b: Matrix4)
    ensures Transform(v, a.Multiply(b)).w == Transform(Transform(v, a), b).w
  {
    var av := Transform(v, a);
    UnfoldRowW(v, a, b);
    TransformRows(v, a);
    TransformRows(av, b);
    RegroupRow(b.a41, b.a42, b.a43, b.a44, a, v);
    SumSubst(av.x, av.y, av.z, av.w,
             a.a11 * v.x + a.a12 * v.y + a.a13 * v.z + a.a14 * v.w,
             a.a21 * v.x + a.a22 * v.y + a.a23 * v.z + a.a24 * v.w,
             a.a31 * v.x + a.a32 * v.y + a.a33 * v.z + a.a34 * v.w,
             a.a41 * v.x + a.a42 * v.y + a.a43 * v.z + a.a44 * v.w, b.a41, b.a42, b.a43, b.a44);
  }

  /** `v.multiply(a.multiply(b))` applies `a` first, then `b`. */
  lemma TransformComposes(v: Vector4, a: Matrix4, b: Matrix4)
    ensures Transform(v, a.Multiply(b)) == Transform(Transform(v, a), b)
  {
    TransformComposesX(v, a, b);
    TransformComposesY(v, a, b);
    TransformComposesZ(v, a, b);
    TransformComposesW(v, a, b);
  }
}
