/**
 * `VectorsApi`: the global `vectors` table and its three constructors.
 * Each constructor looks at argument 2: when it is absent, argument 1 fills
 * every component; otherwise one argument is read per component, in order,
 * the first non-number raising.
 */
module VectorsApi {
  import opened Wrappers
  import opened Vectors
  import opened LuaValues

  /** The functions `addTo` puts in the table: the `vectors` global holds. */
  const NAMES: set<string> := {"vec2", "vec3", "vec4"}

  /** The `vectors` global `addTo` sets, each name bound to its constructor and nothing else. */
  function Installed(): (m: map<string, Value>)
    ensures m.Keys == NAMES
    ensures forall k :: k in m ==> m[k] == Function(k)
  {
    map["vec2" := Function("vec2"), "vec3" := Function("vec3"), "vec4" := Function("vec4")]
  }

  /**
   * The `n` numbers a constructor reads from positions 1..n, or the error of
   * the first position that holds no number.
   */
  function ReadNumbers(args: seq<Value>, n: nat): (r: Result<seq<real>>)
    ensures r.Ok? <==> forall k :: 1 <= k <= n ==> IsNumber(args, k)
    ensures r.Ok? ==> |r.value| == n && forall k :: 1 <= k <= n ==> r.value[k - 1] == ToNumber(args, k)
    ensures r.Err? ==>
      (exists k :: 1 <= k <= n && !IsNumber(args, k) && r.error == BadArgument(k)
        && forall j :: 1 <= j < k ==> IsNumber(args, j))
  {
    if n == 0 then Ok([])
    else
      match ReadNumbers(args, n - 1)
      case Err(e) => Err(e)
      case Ok(xs) =>
        match CheckNumber(args, n)
        case Err(e) => Err(e)
        case Ok(x) => Ok(xs + [x])
  }

  /**
   * The reference reading of all three constructors: the components of a
   * width-`n` vector built from `args`.
   */
  function Components(args: seq<Value>, n: nat): (r: Result<seq<real>>)
    requires n >= 1
    ensures r.Ok? ==> |r.value| == n
  {
    if IsNone(args, 2) then
      match CheckNumber(args, 1)
      case Err(e) => Err(e)
      case Ok(x) => Ok(seq(n, _ => x))
    else ReadNumbers(args, n)
  }

  /** The `vec2` function of `addTo`. */
  function Vec2Of(args: seq<Value>): (r: Result<Vector2>)
    ensures Components(args, 2).Ok? <==> r.Ok?
    ensures r.Ok? ==> [r.value.x, r.value.y] == Components(args, 2).value
    ensures r.Err? ==> r.error == Components(args, 2).error
  {
    if IsNone(args, 2) then
      match CheckNumber(args, 1)
      case Err(e) => Err(e)
      case Ok(v) => Ok(Vector2(v, v))
    else
      match CheckNumber(args, 1)
      case Err(e) => Err(e)
      case Ok(x) =>
        match CheckNumber(args, 2)
        case Err(e) => Err(e)
        case Ok(y) => Ok(Vector2(x, y))
  }

  /** The `vec3` function of `addTo`. */
  function Vec3Of(args: seq<Value>): (r: Result<Vector3>)
    ensures Components(args, 3).Ok? <==> r.Ok?
    ensures r.Ok? ==> [r.value.x, r.value.y, r.value.z] == Components(args, 3).value
    ensures r.Err? ==> r.error == Components(args, 3).error
  {
    if IsNone(args, 2) then
      match CheckNumber(args, 1)
      case Err(e) => Err(e)
      case Ok(v) => Ok(Vector3(v, v, v))
    else
      match CheckNumber(args, 1)
      case Err(e) => Err(e)
      case Ok(x) =>
        match CheckNumber(args, 2)
        case Err(e) => Err(e)
        case Ok(y) =>
          match CheckNumber(args, 3)
          case Err(e) => Err(e)
          case Ok(z) => Ok(Vector3(x, y, z))
  }

  /** The `vec4` function of `addTo`. */
  function Vec4Of(args: seq<Value>): (r: Result<Vector4>)
    ensures Components(args, 4).Ok? <==> r.Ok?
    ensures r.Ok? ==> [r.value.x, r.value.y, r.value.z, r.value.w] == Components(args, 4).value
    ensures r.Err? ==> r.error == Components(args, 4).error
  {
    if IsNone(args, 2) then
      match CheckNumber(args, 1)
      case Err(e) => Err(e)
      case Ok(v) => Ok(Vector4(v, v, v, v))
    else
      match CheckNumber(args, 1)
      case Err(e) => Err(e)
      case Ok(x) =>
        match CheckNumber(args, 2)
        case Err(e) => Err(e)
        case Ok(y) =>
          match CheckNumber(args, 3)
          case Err(e) => Err(e)
          case Ok(z) =>
            match CheckNumber(args, 4)
            case Err(e) => Err(e)
            case Ok(w) => Ok(Vector4(x, y, z, w))
  }

  /** Calling one of the installed functions; the result is the pushed vector. */
  function Call(name: string, args: seq<Value>): (r: Result<Value>)
    requires name in NAMES
    ensures name == "vec2" ==> (r.Ok? <==> Vec2Of(args).Ok?)
    ensures name == "vec3" ==> (r.Ok? <==> Vec3Of(args).Ok?)
    ensures name == "vec4" ==> (r.Ok? <==> Vec4Of(args).Ok?)
    ensures r.Ok? ==> r.value.Vec2? || r.value.Vec3? || r.value.Vec4?
  {
    if name == "vec2" then
      (match Vec2Of(args) case Ok(v) => Ok(Vec2(v)) case Err(e) => Err(e))
    else if name == "vec3" then
      (match Vec3Of(args) case Ok(v) => Ok(Vec3(v)) case Err(e) => Err(e))
    else
      (match Vec4Of(args) case Ok(v) => Ok(Vec4(v)) case Err(e) => Err(e))
  }

  /** One number fills every component; a missing or non-number first argument raises. */
  lemma OneArgumentFills(a: Value)
    ensures (a.Int? || a.Float?) ==>
      var x := ToNumber([a], 1);
      Vec2Of([a]) == Ok(Vector2(x, x)) && Vec3Of([a]) == Ok(Vector3(x, x, x))
      && Vec4Of([a]) == Ok(Vector4(x, x, x, x))
    ensures !(a.Int? || a.Float?) ==>
      Vec2Of([a]) == Err(BadArgument(1)) && Vec3Of([a]) == Err(BadArgument(1)) && Vec4Of([a]) == Err(BadArgument(1))
    ensures Vec2Of([]) == Err(BadArgument(1)) && Vec3Of([]) == Err(BadArgument(1)) && Vec4Of([]) == Err(BadArgument(1))
  {
  }

  /** `vec3(a, b)` reads a third argument that is not there. */
  lemma Vec3NeedsThree(a: real, b: real)
    ensures Vec3Of([Float(a), Float(b)]) == Err(BadArgument(3))
  {
  }

  /** `vec2` reads two arguments and ignores any further ones. */
  lemma Vec2IgnoresRest(args: seq<Value>, more: seq<Value>)
    requires |args| >= 2
    ensures Vec2Of(args + more) == Vec2Of(args)
  {
    assert (args + more)[..2] == args[..2];
    assert (args + more)[0] == args[0] && (args + more)[1] == args[1];
  }

  /** `vec4` accepts one or at least four numbers; two or three raise at the first missing one. */
  lemma Vec4Arity(args: seq<Value>)
    requires forall i :: 0 <= i < |args| ==> args[i].Float?
    ensures Vec4Of(args).Ok? <==> |args| == 1 || |args| >= 4
    ensures 2 <= |args| <= 3 ==> Vec4Of(args) == Err(BadArgument(|args| + 1))
  {
    if |args| >= 4 {
      assert IsNumber(args, 1) && IsNumber(args, 2) && IsNumber(args, 3) && IsNumber(args, 4);
    }
  }
}
