/**
 * The 3x3 matrix record. Fields are named `aij` for row i, column j and are
 * listed column by column, as in the source. `Multiply` keeps the source's
 * reversed convention: `a.Multiply(b)` is the standard product `b·a`.
 * Sine and cosine are abstracted: the rotations take `s` and `c` directly.
 */
module Mat3 {

  datatype Matrix3 = Matrix3(a11: real, a21: real, a31: real,
                             a12: real, a22: real, a32: real,
                             a13: real, a23: real, a33: real)
  {
    /** The entry in row i, column j (1-based); 0 outside the matrix. */
    function At(i: int, j: int): real {
      if i == 1 && j == 1 then a11 else if i == 2 && j == 1 then a21 else if i == 3 && j == 1 then a31
      else if i == 1 && j == 2 then a12 else if i == 2 && j == 2 then a22 else if i == 3 && j == 2 then a32
      else if i == 1 && j == 3 then a13 else if i == 2 && j == 3 then a23 else if i == 3 && j == 3 then a33
      else 0.0
    }

    /** Left-multiplies this matrix by `other`: the result is `other·this`. */
    function Multiply(other: Matrix3): (r: Matrix3)
      ensures r == Product(other, this)
    {
      Matrix3(
        other.a11 * a11 + other.a12 * a21 + other.a13 * a31,
        other.a21 * a11 + other.a22 * a21 + other.a23 * a31,
        other.a31 * a11 + other.a32 * a21 + other.a33 * a31,

        other.a11 * a12 + other.a12 * a22 + other.a13 * a32,
        other.a21 * a12 + other.a22 * a22 + other.a23 * a32,
        other.a31 * a12 + other.a32 * a22 + other.a33 * a32,

        other.a11 * a13 + other.a12 * a23 + other.a13 * a33,
        other.a21 * a13 + other.a22 * a23 + other.a23 * a33,
        other.a31 * a13 + other.a32 * a23 + other.a33 * a33)
    }
  }

  /** Builds a matrix from its entries, `f(i, j)` being row i, column j. */
  function FromEntries(f: (int, int) -> real): (m: Matrix3)
    ensures forall i, j :: 1 <= i <= 3 && 1 <= j <= 3 ==> m.At(i, j) == f(i, j)
  {
    Matrix3(f(1, 1), f(2, 1), f(3, 1), f(1, 2), f(2, 2), f(3, 2), f(1, 3), f(2, 3), f(3, 3))
  }

  /** Row i of `a` times column j of `b`. */
  function RowCol(a: Matrix3, b: Matrix3, i: int, j: int): real {
    a.At(i, 1) * b.At(1, j) + a.At(i, 2) * b.At(2, j) + a.At(i, 3) * b.At(3, j)
  }

  /** The textbook matrix product `a·b`, the reference for `Multiply`. */
  function Product(a: Matrix3, b: Matrix3): Matrix3 {
    FromEntries((i, j) => RowCol(a, b, i, j))
  }

  const IDENTITY := Matrix3(1.0, 0.0, 0.0, 0.0, 1.0, 0.0, 0.0, 0.0, 1.0)

  function Scale(x: real, y: real, z: real): (m: Matrix3)
    ensures forall i, j :: 1 <= i <= 3 && 1 <= j <= 3 && i != j ==> m.At(i, j) == 0.0
    ensures m.At(1, 1) == x && m.At(2, 2) == y && m.At(3, 3) == z
  {
    Matrix3(x, 0.0, 0.0, 0.0, y, 0.0, 0.0, 0.0, z)
  }

  /** Rotation about the x axis by an angle whose sine is `s` and cosine `c`. */
  function RotateX(s: real, c: real): Matrix3 {
    Matrix3(1.0, 0.0, 0.0, 0.0, c, s, 0.0, -s, c)
  }

  function RotateY(s: real, c: real): Matrix3 {
    Matrix3(c, 0.0, -s, 0.0, 1.0, 0.0, s, 0.0, c)
  }

  function RotateZ(s: real, c: real): Matrix3 {
    Matrix3(c, s, 0.0, -s, c, 0.0, 0.0, 0.0, 1.0)
  }

  /** `fromMatrix3f`: reads nine floats in column-major order. */
  function FromColumnMajor(b: seq<real>): (m: Matrix3)
    requires |b| == 9
    ensures forall i, j :: 1 <= i <= 3 && 1 <= j <= 3 ==> m.At(i, j) == b[3 * (j - 1) + (i - 1)]
  {
    Matrix3(b[0], b[1], b[2], b[3], b[4], b[5], b[6], b[7], b[8])
  }

  /** `toMatrix3f`: writes the nine entries, each through the float cast `toFloat`. */
  function ToColumnMajor(m: Matrix3, toFloat: real -> real): (b: seq<real>)
    ensures |b| == 9
    ensures forall i, j :: 1 <= i <= 3 && 1 <= j <= 3 ==> b[3 * (j - 1) + (i - 1)] == toFloat(m.At(i, j))
  {
    [toFloat(m.a11), toFloat(m.a21), toFloat(m.a31),
     toFloat(m.a12), toFloat(m.a22), toFloat(m.a32),
     toFloat(m.a13), toFloat(m.a23), toFloat(m.a33)]
  }

  lemma IdentityIsUnit(m: Matrix3)
    ensures m.Multiply(IDENTITY) == m && IDENTITY.Multiply(m) == m
  {
  }

  lemma ScaleComposes(x1: real, y1: real, z1: real, x2: real, y2: real, z2: real)
    ensures Scale(x1, y1, z1).Multiply(Scale(x2, y2, z2)) == Scale(x1 * x2, y1 * y2, z1 * z2)
    ensures Scale(1.0, 1.0, 1.0) == IDENTITY
  {
  }

  lemma RotationsAtZeroAngle()
    ensures RotateX(0.0, 1.0) == IDENTITY && RotateY(0.0, 1.0) == IDENTITY && RotateZ(0.0, 1.0) == IDENTITY
  {
  }

  /** With s² + c² = 1, the rotation by -angle undoes the rotation by angle. */
  lemma RotationsAreInvertible(s: real, c: real)
    requires s * s + c * c == 1.0
    ensures RotateX(s, c).Multiply(RotateX(-s, c)) == IDENTITY
    ensures RotateY(s, c).Multiply(RotateY(-s, c)) == IDENTITY
    ensures RotateZ(s, c).Multiply(RotateZ(-s, c)) == IDENTITY
  {
  }

  lemma ColumnMajorRoundTrip(m: Matrix3)
    ensures FromColumnMajor(ToColumnMajor(m, x => x)) == m
  {
  }
}
