/**
 * The Lua values the scripting surface passes around, and the argument
 * checks JNLua offers Java functions. A call's arguments are a sequence,
 * argument `k` (counted from 1, as on the Lua stack) being `args[k - 1]`;
 * a position past the end is "none". String-to-number coercion of numeric
 * strings is not modelled: only numbers are numbers.
 */
module LuaValues {
  import opened Wrappers
  import opened Vectors

  datatype Value =
    | Nil
    | Bool(b: bool)
    | Int(i: int)
    | Float(f: real)
    | Str(s: string)
    | Vec2(v2: Vector2)
    | Vec3(v3: Vector3)
    | Vec4(v4: Vector4)
    | Function(name: string)
    | Table(fields: map<string, Value>)

  /** `isNone(k)`: no argument at position `k`. */
  predicate IsNone(args: seq<Value>, k: nat) {
    k > |args|
  }

  /** `isNumber(k)`: an integer or a float at position `k`. */
  predicate IsNumber(args: seq<Value>, k: nat) {
    1 <= k <= |args| && (args[k - 1].Int? || args[k - 1].Float?)
  }

  /** `toNumber` of a number argument. */
  function ToNumber(args: seq<Value>, k: nat): (r: real)
    requires IsNumber(args, k)
    ensures args[k - 1].Int? ==> r == args[k - 1].i as real
    ensures args[k - 1].Float? ==> r == args[k - 1].f
  {
    match args[k - 1]
    case Int(i) => i as real
    case Float(f) => f
  }

  /** `checkNumber(k)`: the number at `k`, or a bad-argument error naming `k`. */
  function CheckNumber(args: seq<Value>, k: nat): (r: Result<real>)
    ensures r.Ok? <==> IsNumber(args, k)
    ensures r.Ok? ==> r.value == ToNumber(args, k)
    ensures r.Err? ==> r.error == BadArgument(k)
  {
    if IsNumber(args, k) then Ok(ToNumber(args, k)) else Err(BadArgument(k))
  }

  /** `checkJavaObject(k, Vector3.class)`. */
  function CheckVector3(args: seq<Value>, k: nat): (r: Result<Vector3>)
    ensures r.Ok? <==> 1 <= k <= |args| && args[k - 1].Vec3?
    ensures r.Ok? ==> r.value == args[k - 1].v3
    ensures r.Err? ==> r.error == BadArgument(k)
  {
    if 1 <= k <= |args| && args[k - 1].Vec3? then Ok(args[k - 1].v3) else Err(BadArgument(k))
  }

  /** The decimal digits of a natural number, as Lua prints an integer. */
  function NatString(n: nat): (s: string)
    ensures |s| >= 1 && forall i :: 0 <= i < |s| ==> '0' <= s[i] <= '9'
    ensures n < 10 <==> |s| == 1
  {
    if n < 10 then [Digit(n)] else NatString(n / 10) + [Digit(n % 10)]
  }

  function Digit(d: nat): (c: char)
    requires d < 10
    ensures '0' <= c <= '9'
  {
    ['0', '1', '2', '3', '4', '5', '6', '7', '8', '9'][d]
  }

  /** The value a digit string reads back as. */
  function DigitsValue(s: string): (n: nat)
    requires forall i :: 0 <= i < |s| ==> '0' <= s[i] <= '9'
  {
    if s == [] then 0 else 10 * DigitsValue(s[..|s| - 1]) + ((s[|s| - 1] as int) - ('0' as int))
  }

  /** Reading the printed digits gives the number back. */
  lemma {:induction false} NatStringValue(n: nat)
    ensures DigitsValue(NatString(n)) == n
  {
    var s := NatString(n);
    if n < 10 {
      assert Digit(n) as int - '0' as int == n;
    } else {
      NatStringValue(n / 10);
      assert s[..|s| - 1] == NatString(n / 10);
      assert Digit(n % 10) as int - '0' as int == n % 10;
    }
  }

  /** How Lua 5.3 prints an integer. */
  function IntString(i: int): (s: string)
    ensures i >= 0 ==> s == NatString(i)
    ensures i < 0 ==> s == "-" + NatString(-i)
  {
    if i >= 0 then NatString(i) else "-" + NatString(-i)
  }

  /**
   * `checkString(k)`: a string, or a number converted to one (an integer as
   * its digits, a float by the given `%.14g` formatter).
   */
  function CheckString(args: seq<Value>, k: nat, showFloat: real -> string): (r: Result<string>)
    ensures r.Ok? <==> 1 <= k <= |args| && (args[k - 1].Str? || args[k - 1].Int? || args[k - 1].Float?)
    ensures r.Ok? && args[k - 1].Str? ==> r.value == args[k - 1].s
    ensures r.Ok? && args[k - 1].Int? ==> r.value == IntString(args[k - 1].i)
    ensures r.Err? ==> r.error == BadArgument(k)
  {
    if 1 <= k <= |args| then
      match args[k - 1]
      case Str(s) => Ok(s)
      case Int(i) => Ok(IntString(i))
      case Float(f) => Ok(showFloat(f))
      case _ => Err(BadArgument(k))
    else Err(BadArgument(k))
  }

  /** Lua's `type` names, as `typeName` reports them. */
  function TypeName(v: Value): (s: string)
    ensures v.Nil? <==> s == "nil"
    ensures (v.Int? || v.Float?) <==> s == "number"
    ensures v.Str? <==> s == "string"
    ensures v.Table? <==> s == "table"
  {
    match v
    case Nil => "nil"
    case Bool(_) => "boolean"
    case Int(_) => "number"
    case Float(_) => "number"
    case Str(_) => "string"
    case Vec2(_) => "userdata"
    case Vec3(_) => "userdata"
    case Vec4(_) => "userdata"
    case Function(_) => "function"
    case Table(_) => "table"
  }
}
