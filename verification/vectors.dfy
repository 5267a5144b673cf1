/**
 * The immutable vector records of the math package, over exact reals.
 * `Math.PI` appears as the literal 3.141592653589793, the decimal value of
 * the Java double, so the degree factors stay constants; `sqrt`-based members
 * (length, normalized) are left out, `pow` is passed in.
 */
module Vectors {

  /** `Math.toRadians` and `Math.toDegrees` factors, defined once for every vector size. */
  const RAD_PER_DEG: real := 3.141592653589793 / 180.0
  const DEG_PER_RAD: real := 180.0 / 3.141592653589793

  /** Java's truncation toward zero of a real quotient. */
  function Trunc(q: real): (t: int)
    ensures q >= 0.0 ==> t as real <= q < t as real + 1.0
    ensures q < 0.0 ==> t as real - 1.0 < q <= t as real
  {
    if q >= 0.0 then q.Floor else -((-q).Floor)
  }

  function Abs(x: real): real {
    if x < 0.0 then -x else x
  }

  /** Java's `%` on doubles: the remainder of a quotient truncated toward zero. */
  function FMod(x: real, y: real): (r: real)
    requires y != 0.0
    ensures Abs(r) < Abs(y)
    ensures x >= 0.0 ==> r >= 0.0
    ensures x <= 0.0 ==> r <= 0.0
    ensures exists q: int {:trigger q as real} :: x == q as real * y + r
  {
    var d := x / y;
    var q := Trunc(d);
    FModBounds(x, y, d, d - q as real);
    x - y * q as real
  }

  /** The sign and magnitude facts behind `FMod`. */
  lemma FModBounds(x: real, y: real, d: real, f: real)
    requires y != 0.0 && d == x / y
    requires d >= 0.0 ==> 0.0 <= f < 1.0
    requires d < 0.0 ==> -1.0 < f <= 0.0
    requires d == 0.0 ==> f == 0.0
    ensures Abs(y * f) < Abs(y)
    ensures x >= 0.0 ==> y * f >= 0.0
    ensures x <= 0.0 ==> y * f <= 0.0
  {
    assert d * y == x;
    ProductBelow(y, f);
    if y > 0.0 {
      assert x >= 0.0 ==> d >= 0.0;
      assert x <= 0.0 ==> d <= 0.0;
    } else {
      assert x >= 0.0 ==> d <= 0.0;
      assert x <= 0.0 ==> d >= 0.0;
    }
  }

  lemma ProductBelow(y: real, f: real)
    requires y != 0.0 && -1.0 < f < 1.0
    ensures Abs(y * f) < Abs(y)
    ensures (y > 0.0 && f >= 0.0) || (y < 0.0 && f <= 0.0) ==> y * f >= 0.0
    ensures (y > 0.0 && f <= 0.0) || (y < 0.0 && f >= 0.0) ==> y * f <= 0.0
  {
    var p := y * f;
    var m := if y > 0.0 then y else -y;
    assert m > 0.0 && Abs(y) == m;
    assert m - p == m * (1.0 - f) || m - p == m * (1.0 + f);
    assert m + p == m * (1.0 + f) || m + p == m * (1.0 - f);
    assert m * (1.0 - f) > 0.0 && m * (1.0 + f) > 0.0;
  }

  datatype Vector2 = Vector2(x: real, y: real)
  {
    function Add(o: Vector2): Vector2 {
      Vector2(x + o.x, y + o.y)
    }

    function Subtract(o: Vector2): (r: Vector2)
      ensures r.Add(o) == this
    {
      Vector2(x - o.x, y - o.y)
    }

    function Multiply(o: Vector2): Vector2 {
      Vector2(x * o.x, y * o.y)
    }

    /** Componentwise quotient; IEEE infinities for a zero component are not modelled. */
    function Divide(o: Vector2): (r: Vector2)
      requires o.x != 0.0 && o.y != 0.0
      ensures r.Multiply(o) == this
    {
      Vector2(x / o.x, y / o.y)
    }

    function ScaleEach(fx: real, fy: real): (r: Vector2)
      ensures r == Multiply(Vector2(fx, fy))
    {
      Vector2(x * fx, y * fy)
    }

    function Scale(f: real): (r: Vector2)
      ensures r == ScaleEach(f, f) && r == Multiply(Vector2(f, f))
    {
      Vector2(x * f, y * f)
    }

    function Dot(o: Vector2): (r: real)
      ensures o == this ==> r >= 0.0
    {
      x * o.x + y * o.y
    }

    function LengthSquared(): (r: real)
      ensures r == Dot(this)
    {
      x * x + y * y
    }

    function ToRad(): (r: Vector2)
      ensures r.ToDeg() == this
    {
      Scale(RAD_PER_DEG)
    }

    function ToDeg(): Vector2 {
      Scale(DEG_PER_RAD)
    }
  }

  const ZERO2 := Vector2(0.0, 0.0)
  const ONE2 := Vector2(1.0, 1.0)
  const X2 := Vector2(1.0, 0.0)
  const Y2 := Vector2(0.0, 1.0)

  datatype Vector3 = Vector3(x: real, y: real, z: real)
  {
    function Add(o: Vector3): Vector3 {
      Vector3(x + o.x, y + o.y, z + o.z)
    }

    function Subtract(o: Vector3): (r: Vector3)
      ensures r.Add(o) == this
    {
      Vector3(x - o.x, y - o.y, z - o.z)
    }

    function Multiply(o: Vector3): Vector3 {
      Vector3(x * o.x, y * o.y, z * o.z)
    }

    /** Componentwise quotient; IEEE infinities for a zero component are not modelled. */
    function Divide(o: Vector3): (r: Vector3)
      requires o.x != 0.0 && o.y != 0.0 && o.z != 0.0
      ensures r.Multiply(o) == this
    {
      Vector3(x / o.x, y / o.y, z / o.z)
    }

    /** Componentwise Java `%`; NaN for a zero component is not modelled. */
    function Mod(o: Vector3): (r: Vector3)
      requires o.x != 0.0 && o.y != 0.0 && o.z != 0.0
      ensures Abs(r.x) < Abs(o.x) && Abs(r.y) < Abs(o.y) && Abs(r.z) < Abs(o.z)
    {
      Vector3(FMod(x, o.x), FMod(y, o.y), FMod(z, o.z))
    }

    /** Componentwise `Math.pow`, which the model takes as a parameter. */
    function Pow(o: Vector3, pow: (real, real) -> real): Vector3 {
      Vector3(pow(x, o.x), pow(y, o.y), pow(z, o.z))
    }

    function ScaleEach(fx: real, fy: real, fz: real): (r: Vector3)
      ensures r == Multiply(Vector3(fx, fy, fz))
    {
      Vector3(x * fx, y * fy, z * fz)
    }

    function Scale(f: real): (r: Vector3)
      ensures r == Multiply(Vector3(f, f, f))
    {
      Vector3(x * f, y * f, z * f)
    }

    function Dot(o: Vector3): (r: real)
      ensures o == this ==> r >= 0.0
    {
      x * o.x + y * o.y + z * o.z
    }

    function Cross(o: Vector3): (r: Vector3)
      ensures r.Dot(this) == 0.0 && r.Dot(o) == 0.0
    {
      Vector3(y * o.z - z * o.y, z * o.x - x * o.z, x * o.y - y * o.x)
    }

    function LengthSquared(): (r: real)
      ensures r == Dot(this)
    {
      x * x + y * y + z * z
    }

    function ToRad(): (r: Vector3)
      ensures r.ToDeg() == this
    {
      Scale(RAD_PER_DEG)
    }

    function ToDeg(): Vector3 {
      Scale(DEG_PER_RAD)
    }
  }

  const ZERO3 := Vector3(0.0, 0.0, 0.0)
  const ONE3 := Vector3(1.0, 1.0, 1.0)
  const X3 := Vector3(1.0, 0.0, 0.0)
  const Y3 := Vector3(0.0, 1.0, 0.0)
  const Z3 := Vector3(0.0, 0.0, 1.0)

  datatype Vector4 = Vector4(x: real, y: real, z: real, w: real)
  {
    function Add(o: Vector4): Vector4 {
      Vector4(x + o.x, y + o.y, z + o.z, w + o.w)
    }

    function Subtract(o: Vector4): (r: Vector4)
      ensures r.Add(o) == this
    {
      Vector4(x - o.x, y - o.y, z - o.z, w - o.w)
    }

    function Multiply(o: Vector4): Vector4 {
      Vector4(x * o.x, y * o.y, z * o.z, w * o.w)
    }

    /** Componentwise quotient; IEEE infinities for a zero component are not modelled. */
    function Divide(o: Vector4): (r: Vector4)
      requires o.x != 0.0 && o.y != 0.0 && o.z != 0.0 && o.w != 0.0
      ensures r.Multiply(o) == this
    {
      Vector4(x / o.x, y / o.y, z / o.z, w / o.w)
    }

    function ScaleEach(fx: real, fy: real, fz: real, fw: real): (r: Vector4)
      ensures r == Multiply(Vector4(fx, fy, fz, fw))
    {
      Vector4(x * fx, y * fy, z * fz, w * fw)
    }

    function Scale(f: real): (r: Vector4)
      ensures r == Multiply(Vector4(f, f, f, f))
    {
      Vector4(x * f, y * f, z * f, w * f)
    }

    function Dot(o: Vector4): (r: real)
      ensures o == this ==> r >= 0.0
    {
      x * o.x + y * o.y + z * o.z + w * o.w
    }

    function LengthSquared(): (r: real)
      ensures r == Dot(this)
    {
      x * x + y * y + z * z + w * w
    }

    function ToRad(): (r: Vector4)
      ensures r.ToDeg() == this
    {
      Scale(RAD_PER_DEG)
    }

    function ToDeg(): Vector4 {
      Scale(DEG_PER_RAD)
    }
  }

  const ZERO4 := Vector4(0.0, 0.0, 0.0, 0.0)
  const ONE4 := Vector4(1.0, 1.0, 1.0, 1.0)

  // Algebraic laws relating the operations to one another.

  lemma Vector2Laws(v: Vector2, w: Vector2)
    ensures v.Add(w).Subtract(w) == v && v.Subtract(w).Add(w) == v
    ensures v.Add(ZERO2) == v && ZERO2.Add(v) == v
    ensures v.Dot(w) == w.Dot(v)
    ensures X2.Dot(Y2) == 0.0
  {
  }

  lemma Vector3Laws(v: Vector3, w: Vector3)
    ensures v.Add(w).Subtract(w) == v
    ensures v.Cross(w) == w.Cross(v).Scale(-1.0)
    ensures v.Dot(w) == w.Dot(v)
    ensures v.ToRad().ToDeg() == v && v.ToDeg().ToRad() == v
  {
  }

  lemma Vector4Laws(v: Vector4, w: Vector4)
    ensures v.Add(w).Subtract(w) == v
    ensures v.Add(ZERO4) == v
    ensures v.Dot(w) == w.Dot(v)
  {
  }
}
