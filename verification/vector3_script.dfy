/**
 * The script face of `Vector3` (`luaFunctions` and `getMetamethod`): the metamethods the record
 * hands to JNLua and the `length`, `dot` and `cross` functions reachable by
 * indexing. A metamethod handler is a function of the vector that supplied
 * it (`this`) and the call's arguments; which operand JNLua takes `this`
 * from is JNLua's business and not part of this model. The double
 * operations the reals cannot express (division and remainder by zero,
 * `Math.pow`, `Math.sqrt`, `Double.toString`) come in through `Env`.
 */
module Vector3Script {
  import opened Wrappers
  import opened Vectors
  import opened LuaValues

  /** The metamethods JNLua asks a reflector for. */
  datatype Metamethod =
    | Add | Sub | Mul | Div | Mod | Pow | Unm | Concat
    | Index | NewIndex | Len | ToString | Eq | Lt | Le | Call | Pairs | IPairs

  /** The double operations of the Java code, as parameters. */
  datatype Env = Env(divide: (real, real) -> real, fmod: (real, real) -> real, pow: (real, real) -> real,
                     sqrt: real -> real, show: real -> string, showFloat: real -> string)

  /** Where the divisor is not zero, `divide` and `fmod` are the exact quotient and Java's remainder. */
  ghost predicate ExactDivide(env: Env) {
    forall a: real, b: real :: b != 0.0 ==> env.divide(a, b) * b == a
  }

  ghost predicate ExactMod(env: Env) {
    forall a: real, b: real :: b != 0.0 ==> env.fmod(a, b) == FMod(a, b)
  }

  const SET_ERROR := "Cannot set values in a vector!"

  /** The keys of `luaFunctions`. */
  const FUNCTIONS: set<string> := {"length", "dot", "cross"}

  /** The metamethods `getMetamethod` answers; the rest get `null`. */
  const PROVIDED: set<Metamethod> := {Add, Sub, Mul, Div, Mod, Pow, Index, NewIndex, Len, ToString}

  /** `divide` under the environment's division. */
  function DivideBy(v: Vector3, o: Vector3, env: Env): (r: Vector3)
    ensures ExactDivide(env) && o.x != 0.0 && o.y != 0.0 && o.z != 0.0 ==> r.Multiply(o) == v
  {
    Vector3(env.divide(v.x, o.x), env.divide(v.y, o.y), env.divide(v.z, o.z))
  }

  /** `mod` under the environment's remainder. */
  function ModBy(v: Vector3, o: Vector3, env: Env): (r: Vector3)
    ensures ExactMod(env) && o.x != 0.0 && o.y != 0.0 && o.z != 0.0 ==> r == v.Mod(o)
  {
    Vector3(env.fmod(v.x, o.x), env.fmod(v.y, o.y), env.fmod(v.z, o.z))
  }

  /** The `INDEX` case of `getMetamethod`: `__index` by a key that `checkString` accepts. */
  function IndexKey(v: Vector3, key: string): (r: Value)
    ensures key in {"1", "x", "r"} ==> r == Float(v.x)
    ensures key in {"2", "y", "g"} ==> r == Float(v.y)
    ensures key in {"3", "z", "b"} ==> r == Float(v.z)
    ensures key in FUNCTIONS ==> r == Function(key)
    ensures r.Nil? <==> key !in {"1", "x", "r", "2", "y", "g", "3", "z", "b"} + FUNCTIONS
  {
    if key in {"1", "x", "r"} then Float(v.x)
    else if key in {"2", "y", "g"} then Float(v.y)
    else if key in {"3", "z", "b"} then Float(v.z)
    else if key in FUNCTIONS then Function(key)
    else Nil
  }

  /** The `TOSTRING` case of `getMetamethod`, with `toString`. */
  function Show(v: Vector3, env: Env): (s: string)
    ensures |s| >= 6 && s[0] == '{' && s[|s| - 1] == '}'
  {
    "{" + env.show(v.x) + ", " + env.show(v.y) + ", " + env.show(v.z) + "}"
  }

  /**
   * `getMetamethod(m)` applied to `args`; `None` is the
   * `null` handler of the default branch.
   */
  function Invoke(v: Vector3, m: Metamethod, args: seq<Value>, env: Env): (r: Option<Result<Value>>)
    ensures r.Some? <==> m in PROVIDED
    ensures m == NewIndex ==> r == Some(Err(LuaRuntime(SET_ERROR)))
    ensures m == Len ==> r == Some(Ok(Int(3)))
    ensures r.Some? && r.value.Ok? && m in {Add, Sub, Mul, Div, Mod, Pow} ==> r.value.value.Vec3?
  {
    match m
    case Add => Some(match CheckVector3(args, 2) case Ok(o) => Ok(Vec3(v.Add(o))) case Err(e) => Err(e))
    case Sub => Some(match CheckVector3(args, 2) case Ok(o) => Ok(Vec3(v.Subtract(o))) case Err(e) => Err(e))
    case Mul =>
      if IsNumber(args, 1) then Some(Ok(Vec3(v.Scale(ToNumber(args, 1)))))
      else if IsNumber(args, 2) then Some(Ok(Vec3(v.Scale(ToNumber(args, 2)))))
      else Some(match CheckVector3(args, 2) case Ok(o) => Ok(Vec3(v.Multiply(o))) case Err(e) => Err(e))
    case Div =>
      if IsNumber(args, 2) then Some(Ok(Vec3(v.Scale(env.divide(1.0, ToNumber(args, 2))))))
      else Some(match CheckVector3(args, 2) case Ok(o) => Ok(Vec3(DivideBy(v, o, env))) case Err(e) => Err(e))
    case Mod => Some(match CheckVector3(args, 2) case Ok(o) => Ok(Vec3(ModBy(v, o, env))) case Err(e) => Err(e))
    case Pow => Some(match CheckVector3(args, 2) case Ok(o) => Ok(Vec3(v.Pow(o, env.pow))) case Err(e) => Err(e))
    case Index => Some(match CheckString(args, 2, env.showFloat) case Ok(k) => Ok(IndexKey(v, k)) case Err(e) => Err(e))
    case NewIndex => Some(Err(LuaRuntime(SET_ERROR)))
    case Len => Some(Ok(Int(3)))
    case ToString => Some(Ok(Str(Show(v, env))))
    case _ => None
  }

  /** `luaFunctions`: the indexed functions, each checking its vector arguments first. */
  function CallFunction(name: string, args: seq<Value>, env: Env): (r: Result<Value>)
    requires name in FUNCTIONS
    ensures r.Ok? <==> CheckVector3(args, 1).Ok? && (name == "length" || CheckVector3(args, 2).Ok?)
    ensures r.Ok? && name == "dot" ==> r.value == Float(args[0].v3.Dot(args[1].v3))
    ensures r.Ok? && name == "cross" ==> r.value == Vec3(args[0].v3.Cross(args[1].v3))
  {
    match CheckVector3(args, 1)
    case Err(e) => Err(e)
    case Ok(a) =>
      if name == "length" then Ok(Float(env.sqrt(a.LengthSquared())))
      else
        match CheckVector3(args, 2)
        case Err(e) => Err(e)
        case Ok(b) => if name == "dot" then Ok(Float(a.Dot(b))) else Ok(Vec3(a.Cross(b)))
  }

  /** `v * k`, `k * v` and `v * w`: a number on either side scales, two vectors multiply componentwise. */
  lemma MulDispatch(v: Vector3, w: Vector3, k: real, env: Env)
    ensures Invoke(v, Mul, [Vec3(v), Float(k)], env) == Some(Ok(Vec3(v.Scale(k))))
    ensures Invoke(v, Mul, [Float(k), Vec3(v)], env) == Some(Ok(Vec3(v.Scale(k))))
    ensures Invoke(v, Mul, [Vec3(v), Vec3(w)], env) == Some(Ok(Vec3(v.Multiply(w))))
    ensures forall o: Value :: !o.Int? && !o.Float? && !o.Str? && !o.Vec3? ==>
      Invoke(v, Mul, [Vec3(v), o], env) == Some(Err(BadArgument(2)))
    ensures Invoke(v, Mul, [Vec3(v), Str("a")], env) == Some(Err(BadArgument(2)))
  {
  }

  /** `v / k` scales by the reciprocal, so multiplying back by `k` restores `v`; `v / w` undoes `* w`. */
  lemma DivDispatch(v: Vector3, w: Vector3, k: real, env: Env)
    requires ExactDivide(env) && k != 0.0 && w.x != 0.0 && w.y != 0.0 && w.z != 0.0
    ensures var q := Invoke(v, Div, [Vec3(v), Float(k)], env);
      q.Some? && q.value.Ok? && q.value.value.v3.Scale(k) == v
    ensures var q := Invoke(v, Div, [Vec3(v), Vec3(w)], env);
      q.Some? && q.value.Ok? && q.value.value.v3.Multiply(w) == v
  {
    var r := env.divide(1.0, k);
    assert r * k == 1.0;
    ScaleBack(v, r, k);
  }

  lemma ScaleBack(v: Vector3, r: real, k: real)
    requires r * k == 1.0
    ensures v.Scale(r).Scale(k) == v
  {
    assert v.x * r * k == v.x * (r * k);
    assert v.y * r * k == v.y * (r * k);
    assert v.z * r * k == v.z * (r * k);
  }

  /** `v + w - w == v` through the metamethods. */
  lemma AddThenSub(v: Vector3, w: Vector3, env: Env)
    ensures var s := Invoke(v, Add, [Vec3(v), Vec3(w)], env).value.value.v3;
      Invoke(s, Sub, [Vec3(s), Vec3(w)], env) == Some(Ok(Vec3(v)))
  {
  }

  /** Indexing by the numbers 1, 2, 3 and by the letters reads the components. */
  lemma IndexComponents(v: Vector3, env: Env)
    ensures Invoke(v, Index, [Vec3(v), Int(1)], env) == Some(Ok(Float(v.x)))
    ensures Invoke(v, Index, [Vec3(v), Int(2)], env) == Some(Ok(Float(v.y)))
    ensures Invoke(v, Index, [Vec3(v), Int(3)], env) == Some(Ok(Float(v.z)))
    ensures Invoke(v, Index, [Vec3(v), Str("g")], env) == Some(Ok(Float(v.y)))
    ensures Invoke(v, Index, [Vec3(v), Str("cross")], env) == Some(Ok(Function("cross")))
    ensures Invoke(v, Index, [Vec3(v), Str("w")], env) == Some(Ok(Nil))
  {
    assert IntString(1) == "1" && IntString(2) == "2" && IntString(3) == "3";
  }

  /** Equality, ordering, negation and concatenation have no handler. */
  lemma NoEquality(v: Vector3, args: seq<Value>, env: Env)
    ensures Invoke(v, Eq, args, env).None? && Invoke(v, Lt, args, env).None?
    ensures Invoke(v, Unm, args, env).None? && Invoke(v, Concat, args, env).None?
  {
  }

  /** `cross` through the script is antisymmetric and orthogonal to its operands. */
  lemma ScriptCross(a: Vector3, b: Vector3, env: Env)
    ensures var c := CallFunction("cross", [Vec3(a), Vec3(b)], env);
      c.Ok? && c.value.v3.Dot(a) == 0.0 && c.value.v3.Dot(b) == 0.0
      && c.value.v3 == CallFunction("cross", [Vec3(b), Vec3(a)], env).value.v3.Scale(-1.0)
  {
    Vector3Laws(a, b);
  }
}
