/**
 * The Lua projection of a model-part tree (the Lua half of `FiguaModelPart`):
 * every part becomes a table keyed by its children's names plus a reserved
 * key holding the part's `luaIndex`, and all tables share one metatable that
 * hides itself, rejects new keys and offers `setRot` through `__index`.
 * A Lua table's raw contents are a map from string keys to values; a key
 * mapped to nil is absent.
 */
module PartTables {
  import opened Wrappers
  import opened Vectors
  import opened ModelPart
  import opened LuaValues
  import MathUtils
  import Mat4
  import PreRender
  import PartDeserializer

  const ROOT_MODELPART_KEY := "ROOT_MODELPART_KEY"
  const TEMP_GLOBAL_METATABLE := "MODELPART_TEMP_GLOBAL_METATABLE_LOCATION"
  const RESERVED_INDEX_KEY := "FIGUA_RESERVED_INDEX_KEY"
  const EDIT_ERROR := "Cannot edit model part tables!"
  const TOSTRING := "[Model Part Table]"
  /** The keys of the `__index` table: the entries of `luaFunctions`. */
  const FUNCTIONS: set<string> := {"setRot"}

  /** The shared metatable, field by field. */
  datatype Metatable = Metatable(newindexError: string, metatableField: Value, tostring: string, index: set<string>)

  /** `pushModelPartMetatable`. */
  const MODEL_PART_METATABLE := Metatable(EDIT_ERROR, Bool(false), TOSTRING, FUNCTIONS)

  /** `pushTable`, the table of one part and its subtree. */
  function PushTable(p: Part): (t: Value)
    decreases p, 1
    ensures t.Table?
    ensures t.fields.Keys == Names(p.children) + {RESERVED_INDEX_KEY}
    ensures t.fields[RESERVED_INDEX_KEY] == Int(p.luaIndex)
  {
    Table(ChildFields(p.children)[RESERVED_INDEX_KEY := Int(p.luaIndex)])
  }

  /** The names of a child list. */
  ghost function Names(cs: seq<Part>): set<string> {
    set i | 0 <= i < |cs| :: cs[i].name
  }

  /** The loop of `pushTable`: the children stored in order, each under its name. */
  function ChildFields(cs: seq<Part>): (m: map<string, Value>)
    decreases cs, 0
    ensures m.Keys == Names(cs)
  {
    if cs == [] then map[]
    else
      var init := cs[..|cs| - 1];
      var last := cs[|cs| - 1];
      var m := ChildFields(init)[last.name := PushTable(last)];
      assert Names(cs) == Names(init) + {last.name} by {
        forall x | x in Names(cs) ensures x in Names(init) + {last.name} {
          var i :| 0 <= i < |cs| && cs[i].name == x;
          if i < |cs| - 1 { assert init[i] == cs[i]; }
        }
        forall x | x in Names(init) ensures x in Names(cs) {
          var i :| 0 <= i < |init| && init[i].name == x;
          assert cs[i] == init[i];
        }
      }
      m
  }

  /**
   * Two siblings with one name: the one stored later wins, so only the last
   * child with a given name is reachable from its parent's table.
   */
  lemma {:induction false} LastSiblingWins(cs: seq<Part>, i: int)
    requires 0 <= i < |cs|
    requires forall j :: i < j < |cs| ==> cs[j].name != cs[i].name
    ensures ChildFields(cs)[cs[i].name] == PushTable(cs[i])
    decreases |cs|
  {
    if i < |cs| - 1 {
      var init := cs[..|cs| - 1];
      assert init[i] == cs[i];
      LastSiblingWins(init, i);
    }
  }

  /** A child reached by name from its parent's table carries that child's index. */
  lemma ChildTableIndex(p: Part, i: int)
    requires 0 <= i < |p.children|
    requires p.children[i].name != RESERVED_INDEX_KEY
    requires forall j :: i < j < |p.children| ==> p.children[j].name != p.children[i].name
    ensures var c := p.children[i];
      c.name in PushTable(p).fields
      && PushTable(p).fields[c.name] == PushTable(c)
      && PushTable(c).fields[RESERVED_INDEX_KEY] == Int(c.luaIndex)
  {
    LastSiblingWins(p.children, i);
  }

  /**
   * A child named like the reserved key is shadowed: its parent's table
   * yields the parent's own index under that key.
   */
  lemma ReservedNameShadowsChild(p: Part, i: int)
    requires 0 <= i < |p.children| && p.children[i].name == RESERVED_INDEX_KEY
    ensures PushTable(p).fields[p.children[i].name] == Int(p.luaIndex)
    ensures PushTable(p).fields[p.children[i].name] != PushTable(p.children[i])
  {
  }

  /**
   * Lua's `t.key`: a present raw key wins; otherwise `__index` supplies the
   * part functions, and anything else is nil.
   */
  function Index(t: Value, key: string): (r: Value)
    requires t.Table?
    ensures key in t.fields ==> r == t.fields[key]
    ensures key !in t.fields && key in FUNCTIONS ==> r == Function(key)
    ensures key !in t.fields && key !in FUNCTIONS ==> r == Nil
  {
    if key in t.fields then t.fields[key]
    else if key in MODEL_PART_METATABLE.index then Function(key)
    else Nil
  }

  /** A part with no child named `setRot` offers the function; one with such a child hides it. */
  lemma SetRotReachable(p: Part)
    ensures Index(PushTable(p), "setRot") == Function("setRot") <==> "setRot" !in Names(p.children)
  {
    var t := PushTable(p);
    if "setRot" in Names(p.children) {
      var i :| 0 <= i < |p.children| && p.children[i].name == "setRot";
      var j := LastNamed(p.children, i);
      LastSiblingWins(p.children, j);
    }
  }

  /** The index of the last child sharing `cs[i]`'s name. */
  lemma LastNamed(cs: seq<Part>, i: int) returns (j: int)
    requires 0 <= i < |cs|
    ensures i <= j < |cs| && cs[j].name == cs[i].name
    ensures forall k :: j < k < |cs| ==> cs[k].name != cs[j].name
    decreases |cs| - i
  {
    if exists k :: i < k < |cs| && cs[k].name == cs[i].name {
      var k :| i < k < |cs| && cs[k].name == cs[i].name;
      j := LastNamed(cs, k);
    } else {
      j := i;
    }
  }

  /**
   * Lua's `t.key = v` on a part table as written in `pushModelPartMetatable`: `__newindex`
   * only runs for keys the table lacks, so a present key is overwritten (or
   * removed by nil) and only a new key raises.
   */
  function Assign(t: Value, key: string, v: Value): (r: Result<Value>)
    requires t.Table?
    ensures r.Err? <==> key !in t.fields
    ensures r.Err? ==> r.error == LuaRuntime(EDIT_ERROR)
    ensures r.Ok? ==> (r.value.Table? && r.value.fields.Keys - {key} == t.fields.Keys - {key}
      && (forall k :: k in t.fields && k != key ==> k in r.value.fields && r.value.fields[k] == t.fields[k])
      && (v.Nil? <==> key !in r.value.fields)
      && (!v.Nil? ==> r.value.fields[key] == v))
  {
    if key !in t.fields then Err(LuaRuntime(MODEL_PART_METATABLE.newindexError))
    else if v.Nil? then Ok(Table(t.fields - {key}))
    else Ok(Table(t.fields[key := v]))
  }

  /**
   * The assignment the error message promises: the part tables are read-only
   * whatever the key (a proxy table with empty raw contents forwarding reads).
   */
  function AssignIntended(t: Value, key: string, v: Value): (r: Result<Value>)
    requires t.Table?
    ensures r == Err(LuaRuntime(EDIT_ERROR))
  {
    Err(LuaRuntime(MODEL_PART_METATABLE.newindexError))
  }

  /** `getmetatable` on a part table yields the `__metatable` field, `false`. */
  function GetMetatable(t: Value): (r: Value)
    requires t.Table?
    ensures r == Bool(false)
  {
    MODEL_PART_METATABLE.metatableField
  }

  /** `tostring` on a part table. */
  function ToString(t: Value): (r: string)
    requires t.Table?
    ensures r == "[Model Part Table]"
  {
    MODEL_PART_METATABLE.tostring
  }

  const INT64_MIN: int := -0x8000_0000_0000_0000
  const INT64_MAX: int := 0x7fff_ffff_ffff_ffff

  /**
   * Lua 5.3's `checkinteger` on a number: an integer as it is, a float only
   * when it has an exact integer value that fits a 64-bit Lua integer; any
   * other value is a bad argument at the top of the stack.
   */
  function CheckInteger(v: Value): (r: Result<int>)
    ensures v.Int? ==> r == Ok(v.i)
    ensures v.Float? ==> (r.Ok? <==> v.f.Floor as real == v.f && INT64_MIN <= v.f.Floor <= INT64_MAX)
    ensures v.Float? && r.Ok? ==> r.value as real == v.f
    ensures r.Err? ==> r.error == BadArgument(-1) && !v.Int?
  {
    match v
    case Int(i) => Ok(i)
    case Float(f) =>
      if f.Floor as real == f && INT64_MIN <= f.Floor <= INT64_MAX then Ok(f.Floor) else Err(BadArgument(-1))
    case _ => Err(BadArgument(-1))
  }

  /**
   * The first half of `getModelPart`: argument 1 must be a table; its raw
   * reserved key is read (nil when absent), checked as an integer and cast
   * to a Java `int`.
   */
  function TableIndex(arg1: Value): (r: Result<int>)
    ensures !arg1.Table? ==> r == Err(BadArgument(1))
    ensures arg1.Table? && RESERVED_INDEX_KEY !in arg1.fields ==> r == Err(BadArgument(-1))
    ensures arg1.Table? && RESERVED_INDEX_KEY in arg1.fields ==>
      var c := CheckInteger(arg1.fields[RESERVED_INDEX_KEY]);
      (r.Ok? <==> c.Ok?) && (c.Ok? ==> r.value == MathUtils.Wrap32(c.value)) && (c.Err? ==> r == Err(c.error))
  {
    if !arg1.Table? then Err(BadArgument(1))
    else if RESERVED_INDEX_KEY !in arg1.fields then Err(BadArgument(-1))
    else
      match CheckInteger(arg1.fields[RESERVED_INDEX_KEY])
      case Err(e) => Err(e)
      case Ok(i) => Ok(MathUtils.Wrap32(i))
  }

  /**
   * `getModelPart`: the index the table at argument 1 holds, looked up in
   * the element array of the root held in the registry.
   */
  function GetModelPart(arg1: Value, elements: seq<Part>): (r: Result<Part>)
    ensures TableIndex(arg1).Err? ==> r == Err(TableIndex(arg1).error)
    ensures TableIndex(arg1).Ok? ==>
      var k := TableIndex(arg1).value;
      (r.Ok? <==> 0 <= k < |elements|) && (r.Ok? ==> r.value == elements[k]) && (r.Err? ==> r == Err(IndexOutOfBounds))
  {
    match TableIndex(arg1)
    case Err(e) => Err(e)
    case Ok(k) => if 0 <= k < |elements| then Ok(elements[k]) else Err(IndexOutOfBounds)
  }

  /** Element arrays whose entries are numbered by position, as the deserializer builds them. */
  predicate Numbered(elements: seq<Part>) {
    forall i :: 0 <= i < |elements| ==> elements[i].luaIndex == i
  }

  /** A part stored at its own Lua index resolves, through its own table, to itself. */
  lemma TableResolvesToPart(elements: seq<Part>, i: int)
    requires 0 <= i < |elements| && elements[i].luaIndex == i && |elements| <= 0x8000_0000
    ensures GetModelPart(PushTable(elements[i]), elements) == Ok(elements[i])
  {
    assert MathUtils.IsInt32(i);
  }

  /**
   * Whatever build state a `deserialize` starts from, even one a failed
   * build left stale parts in, every part of the tree it returns resolves
   * through its own table to itself.
   */
  lemma TreeTablesResolve(root: PartDeserializer.Nbt, b: Builder, i: int)
    requires PartDeserializer.Deserialize(root, b).0.Ok?
    requires var t := PartDeserializer.Deserialize(root, b).0.value;
      0 <= i < |Flatten(t.root)| && |t.elements| <= 0x8000_0000
    ensures var t := PartDeserializer.Deserialize(root, b).0.value;
      GetModelPart(PushTable(Flatten(t.root)[i]), t.elements) == Ok(Flatten(t.root)[i])
  {
    PartDeserializer.ConstructorShaped();
    var t := PartDeserializer.Deserialize(root, b).0.value;
    assert PartDeserializer.Deserialize(root, b) == PartDeserializer.DeserializeWith(root, b, PartDeserializer.CONSTRUCTOR);
    PartDeserializer.TreeAtOwnIndices(root, b, PartDeserializer.CONSTRUCTOR);
    assert t.elements[b.count + i] == Flatten(t.root)[i];
    TableResolvesToPart(t.elements, b.count + i);
  }

  /**
   * The `setRot` script function: argument 2 is checked before argument 1,
   * then the part the table names is rotated in place. It is the object
   * the element array and the tree share, so the tree changes with it; a
   * stale part belongs to no tree.
   */
  function ScriptSetRot(args: seq<Value>, t: Tree): (r: Result<Tree>)
    ensures (|args| < 2 || !args[1].Vec3?) ==> r == Err(BadArgument(2))
    ensures |args| >= 2 && args[1].Vec3? && GetModelPart(args[0], t.elements).Err?
      ==> r == Err(GetModelPart(args[0], t.elements).error)
    ensures r.Ok? ==>
      (|args| >= 2 && args[1].Vec3? && GetModelPart(args[0], t.elements).Ok?
       && var k := TableIndex(args[0]).value;
       RotatedAt(r.value.elements, t.elements, k, args[1].v3)
       && |r.value.stale| == |t.stale|
       && (k < |t.stale| ==> r.value.root == t.root)
       && (k >= |t.stale| ==> r.value.stale == t.stale && r.value.root == SetRotAt(t.root, k - |t.stale|, args[1].v3)))
  {
    if |args| < 2 || !args[1].Vec3? then Err(BadArgument(2))
    else
      match TableIndex(args[0])
      case Err(e) => Err(e)
      case Ok(k) =>
        var v := args[1].v3;
        if !(0 <= k < |t.elements|) then Err(IndexOutOfBounds)
        else if k < |t.stale| then
          var stale := t.stale[k := SetRot(t.stale[k], v)];
          RotatedLeft(stale, t.stale, Flatten(t.root), Flatten(t.root), k, v);
          Ok(t.(stale := stale))
        else
          var root := SetRotAt(t.root, k - |t.stale|, v);
          FlattenSetRotAt(t.root, k - |t.stale|, v);
          RotatedRight(t.stale, t.stale, Flatten(root), Flatten(t.root), k - |t.stale|, v);
          Ok(t.(root := root))
  }

  /** `part:setRot(v)` through a part's own table rotates exactly that part, and no other. */
  lemma ScriptSetRotOnOwnTable(t: Tree, i: int, v: Vector3)
    requires 0 <= i < |t.elements| && t.elements[i].luaIndex == i && |t.elements| <= 0x8000_0000
    ensures var r := ScriptSetRot([PushTable(t.elements[i]), Vec3(v)], t);
      r.Ok? && r.value.elements[i] == SetRot(t.elements[i], v) && r.value.elements[i].rotation.ToDeg() == v
      && forall j :: 0 <= j < |t.elements| && j != i ==> SameNode(r.value.elements[j], t.elements[j])
  {
    assert MathUtils.IsInt32(i);
  }

  /**
   * A script's `part:setRot(v)` reaches the next frame: the following
   * pre-render pass rebuilds that part's matrix from the new rotation, at
   * the part's place in the tree.
   */
  lemma SetRotThenPass(t: Tree, i: int, v: Vector3, parent: Mat4.Matrix4, env: Env)
    requires |t.stale| <= i < |t.elements| && t.elements[i].luaIndex == i && |t.elements| <= 0x8000_0000
    ensures var r := ScriptSetRot([PushTable(t.elements[i]), Vec3(v)], t);
      r.Ok? &&
      var after := Flatten(PreRender.Pass(r.value.root, parent, false, false, env).part);
      var j := i - |t.stale|;
      |after| == |Flatten(t.root)| && after[j].luaIndex == i
      && after[j].rotation.ToDeg() == v
      && after[j].transform == Trs(SetRot(t.elements[i], v), env)
  {
    assert MathUtils.IsInt32(i);
    var r := ScriptSetRot([PushTable(t.elements[i]), Vec3(v)], t).value;
    var j := i - |t.stale|;
    FlattenSetRotAt(t.root, j, v);
    assert t.elements[i] == Flatten(t.root)[j];
    PreRender.PassRefreshes(r.root, parent, false, false, env);
  }

  /**
   * `createAsGlobal` over the global table. The root's table
   * becomes the global; the temporary metatable global is cleared last, so a
   * global named like it ends up nil.
   */
  function CreateAsGlobal(root: Part, globals: map<string, Value>, name: string): (r: map<string, Value>)
    ensures TEMP_GLOBAL_METATABLE !in r
    ensures name != TEMP_GLOBAL_METATABLE ==> name in r && r[name] == PushTable(root)
    ensures forall k :: k in globals && k != name && k != TEMP_GLOBAL_METATABLE ==> k in r && r[k] == globals[k]
    ensures r.Keys <= globals.Keys + {name}
  {
    globals[name := PushTable(root)] - {TEMP_GLOBAL_METATABLE}
  }

  /**
   * Finding: a script can rewrite the reserved key of a part table, which is
   * present, so `__newindex` never sees it; `setRot` through that table then
   * rotates another part.
   */
  lemma ReservedKeyRedirects(elements: seq<Part>, i: int, j: int)
    requires Numbered(elements) && |elements| <= 0x8000_0000
    requires 0 <= i < |elements| && 0 <= j < |elements| && i != j
    ensures var t := Assign(PushTable(elements[i]), RESERVED_INDEX_KEY, Int(j));
      t.Ok? && GetModelPart(t.value, elements) == Ok(elements[j])
      && elements[j] != elements[i]
  {
    assert MathUtils.IsInt32(j);
    assert elements[j].luaIndex != elements[i].luaIndex;
  }

  /** With the intended assignment, every table keeps resolving to its own part. */
  lemma IntendedTablesStayBound(elements: seq<Part>, i: int, key: string, v: Value)
    requires Numbered(elements) && 0 <= i < |elements| && |elements| <= 0x8000_0000
    ensures AssignIntended(PushTable(elements[i]), key, v).Err?
    ensures GetModelPart(PushTable(elements[i]), elements) == Ok(elements[i])
  {
    TableResolvesToPart(elements, i);
  }
}
