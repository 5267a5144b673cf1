/**
 * `AvatarState`: one avatar instantiated on one entity. Construction builds
 * the part tree from the model, sizes the transform texture to the tree's
 * leaves and, when there is a script, sets up a Lua sandbox for it. Ticking
 * and rendering are modelled as the trace of what they do, in order; what a
 * script raises is an argument, since the virtual machine is not modelled.
 */
module AvatarStates {
  import opened Wrappers
  import opened MathUtils
  import opened LuaValues
  import Mat4
  import ModelPart
  import PartDeserializer
  import TransformTex
  import PreRender

  /** Entities are told apart by identity only. */
  type Entity = nat

  /** The steps that set up a script, in the order the `AvatarState` constructor takes them. */
  datatype Step = CreateLuaState | InstallModel(global: string) | SetupLog | RunSource(source: string)

  datatype AvatarState = AvatarState(
    owner: Entity,
    tree: ModelPart.Tree,
    transforms: TransformTex.Texture,
    setup: seq<Step>,
    hasLua: bool)

  /** What rendering and ticking do, as seen from outside. */
  datatype Event =
    | ScriptInvoke(channel: string, extra: seq<Value>)
    | Uploaded(upload: PreRender.Upload)
    | UseShader
    | SetModelView
    | BindTransforms(unit: int)
    | DrawAvatar
    | CloseTransforms
    | CloseLua

  /** `n` matrices is a size `new TransformTexture(n)` returns from: `nextPowerOfTwo` loops forever above 2^30. */
  predicate Sized(n: int) {
    IsInt32(n) && Wrap32(n * 4) <= MAX_POW2
  }

  /** The model either fails to deserialize or has a tree whose transform texture can be sized. */
  predicate Buildable(model: PartDeserializer.Nbt, b: ModelPart.Builder) {
    SizedTree(PartDeserializer.Deserialize(model, b).0)
  }

  /** A built tree's transform texture can be sized. */
  predicate SizedTree(t: Result<ModelPart.Tree>) {
    t.Ok? ==> Sized(ModelPart.LastTexIndex(t.value) + 1)
  }

  /** The constructor's script steps, none without a script. */
  function Setup(luaSource: Option<string>): (s: seq<Step>)
    ensures luaSource.None? <==> s == []
    ensures luaSource.Some? ==> |s| == 4 && s[0] == CreateLuaState && s[3] == RunSource(luaSource.value)
  {
    if luaSource.None? then [] else [CreateLuaState, InstallModel("model"), SetupLog, RunSource(luaSource.value)]
  }

  /**
   * The rest of the `AvatarState` constructor, once the tree is built: size the transform texture to the
   * last leaf index + 1, then set up the script.
   */
  function Finish(d: (Result<ModelPart.Tree>, ModelPart.Builder), luaSource: Option<string>, owner: Entity)
    : (r: (Result<AvatarState>, ModelPart.Builder))
    requires SizedTree(d.0)
    ensures r.1 == d.1 && (d.0.Err? ==> r.0 == Err(d.0.error))
    ensures d.0.Ok? ==> (r.0.Ok? <==> TransformTex.Create(ModelPart.LastTexIndex(d.0.value) + 1).Ok?)
    ensures r.0.Ok? ==>
      var s := r.0.value;
      s.owner == owner && s.tree == d.0.value
      && Ok(s.transforms) == TransformTex.Create(ModelPart.LastTexIndex(s.tree) + 1)
      && (s.hasLua <==> luaSource.Some?) && s.setup == Setup(luaSource)
  {
    if d.0.Err? then (Err(d.0.error), d.1)
    else
      var tex := TransformTex.Create(ModelPart.LastTexIndex(d.0.value) + 1);
      if tex.Err? then (Err(tex.error), d.1)
      else (Ok(AvatarState(owner, d.0.value, tex.value, Setup(luaSource), luaSource.Some?)), d.1)
  }

  /**
   * The `AvatarState` constructor: deserialize the model (threading the static build state),
   * then finish. Either failure escapes the constructor.
   */
  function Construct(model: PartDeserializer.Nbt, luaSource: Option<string>, owner: Entity, b: ModelPart.Builder)
    : (r: (Result<AvatarState>, ModelPart.Builder))
    requires Buildable(model, b)
    ensures r == Finish(PartDeserializer.Deserialize(model, b), luaSource, owner)
  {
    Finish(PartDeserializer.Deserialize(model, b), luaSource, owner)
  }

  /**
   * From a fresh build state, a constructed state's transform texture has a
   * slot for every geometry leaf of its tree, whose texture indices are
   * `0..k-1`.
   */
  lemma TransformsFitLeaves(model: PartDeserializer.Nbt, luaSource: Option<string>, owner: Entity)
    requires Buildable(model, ModelPart.FRESH)
    requires Construct(model, luaSource, owner, ModelPart.FRESH).0.Ok?
    ensures var s := Construct(model, luaSource, owner, ModelPart.FRESH).0.value;
      var k := |ModelPart.LeafIndices(s.tree.root)|;
      ModelPart.LeafIndices(s.tree.root) == ModelPart.Run(0, k)
      && (0 < k <= ModelPart.GROUP_FIRST + 1 ==> TransformTex.Capacity(s.transforms) >= k)
  {
    PartDeserializer.ConstructorShaped();
    var d := PartDeserializer.Deserialize(model, ModelPart.FRESH);
    assert d == PartDeserializer.DeserializeWith(model, ModelPart.FRESH, PartDeserializer.CONSTRUCTOR);
    PartDeserializer.DeserializedTree(model, PartDeserializer.CONSTRUCTOR);
    var t := d.0.value;
    var s := Finish(d, luaSource, owner).0.value;
    var k := |ModelPart.LeafIndices(t.root)|;
    if 0 < k <= ModelPart.GROUP_FIRST + 1 {
      FinishedTransforms(d, luaSource, owner, k);
      CapacityCovers(k, s.transforms);
    }
  }

  /** A finished state's tree is the built one, and its texture is made for the built tree's `k` matrices. */
  lemma FinishedTransforms(d: (Result<ModelPart.Tree>, ModelPart.Builder), luaSource: Option<string>, owner: Entity, k: int)
    requires SizedTree(d.0) && Finish(d, luaSource, owner).0.Ok?
    requires d.0.Ok? ==> ModelPart.LastTexIndex(d.0.value) + 1 == k
    ensures d.0.Ok? && Finish(d, luaSource, owner).0.value.tree == d.0.value
    ensures Sized(k) && Ok(Finish(d, luaSource, owner).0.value.transforms) == TransformTex.Create(k)
  {
  }

  /** A texture made for `n` matrices holds at least `n`. */
  lemma CapacityCovers(n: int, tex: TransformTex.Texture)
    requires 0 < n <= 0x1000_0000 && Sized(n) && TransformTex.Create(n) == Ok(tex)
    ensures TransformTex.Capacity(tex) >= n
  {
    TransformTex.CreateGeometry(n);
    assert Wrap32(n * 4) == n * 4;
  }

  /** `SCALE_MATRIX`: models are drawn at a sixteenth of their size. */
  const SCALE_MATRIX := Mat4.Scale(1.0 / 16.0, 1.0 / 16.0, 1.0 / 16.0)

  /** A frame either finishes, or hangs inside an `uploadData` call that never returns. */
  datatype Frame = Finished(state: AvatarState, events: seq<Event>) | Hangs(events: seq<Event>)

  /** Every upload of `us` is one `uploadData` as written returns from. */
  predicate AllReturn(us: seq<PreRender.Upload>) {
    forall i :: 0 <= i < |us| ==> TransformTex.Returns(us[i].first, us[i].last)
  }

  /**
   * The collectors' `uploadData` calls in the order the pass makes them,
   * each as written: a call returns only when its range ends within its
   * first index's texture row, so the replay stops at the first that does
   * not. The flag says whether every call returned.
   */
  function Replay(us: seq<PreRender.Upload>): (r: (seq<Event>, bool))
    ensures |r.0| <= |us|
    ensures forall i :: 0 <= i < |r.0| ==> r.0[i] == Uploaded(us[i]) && TransformTex.Returns(us[i].first, us[i].last)
    ensures r.1 <==> AllReturn(us)
    ensures r.1 <==> |r.0| == |us|
    ensures !r.1 ==> !TransformTex.Returns(us[|r.0|].first, us[|r.0|].last)
  {
    if us == [] then ([], true)
    else if !TransformTex.Returns(us[0].first, us[0].last) then ([], false)
    else
      var (rest, ok) := Replay(us[1..]);
      assert AllReturn(us) <==> AllReturn(us[1..]) by {
        if AllReturn(us[1..]) {
          forall i | 0 <= i < |us| ensures TransformTex.Returns(us[i].first, us[i].last) {
            if i > 0 { assert us[i] == us[1..][i - 1]; }
          }
        }
      }
      ([Uploaded(us[0])] + rest, ok)
  }

  /**
   * `render` as written, after the script event: the pre-render pass with
   * the scale matrix and no buffer, whose collectors call `uploadData`, then
   * the draw calls, reached only if every upload returned.
   */
  function Draw(s: AvatarState, env: ModelPart.Env): (r: Frame)
    ensures var pass := PreRender.Pass(s.tree.root, SCALE_MATRIX, false, false, env);
      var us := pass.uploads;
      (r.Finished? <==> AllReturn(us))
      && (r.Finished? ==>
        r.state == s.(tree := s.tree.(root := pass.part))
        && |r.events| == |us| + 4
        && (forall i :: 0 <= i < |us| ==> r.events[i] == Uploaded(us[i]))
        && r.events[|us|..] == [UseShader, SetModelView, BindTransforms(1), DrawAvatar])
      && (r.Hangs? ==>
        |r.events| < |us|
        && (forall i :: 0 <= i < |r.events| ==> r.events[i] == Uploaded(us[i]))
        && !TransformTex.Returns(us[|r.events|].first, us[|r.events|].last))
  {
    var pass := PreRender.Pass(s.tree.root, SCALE_MATRIX, false, false, env);
    var (ups, ok) := Replay(pass.uploads);
    if ok then Finished(s.(tree := s.tree.(root := pass.part)), ups + [UseShader, SetModelView, BindTransforms(1), DrawAvatar])
    else Hangs(ups)
  }

  /**
   * `render`: the script's render event first (through `luaRender`, which
   * needs a Lua state), then the pass and the draw. A script error escapes
   * before anything else.
   */
  function Render(s: AvatarState, delta: real, scriptError: Option<Exception>, env: ModelPart.Env)
    : (r: Result<Frame>)
    ensures !s.hasLua ==> r == Err(NullPointer)
    ensures s.hasLua && scriptError.Some? ==> r == Err(scriptError.value)
    ensures s.hasLua && scriptError.None? ==> r.Ok?
    ensures r.Ok? ==> |r.value.events| >= 1 && r.value.events[0] == ScriptInvoke("render", [Float(delta)])
    ensures r.Ok? ==> (r.value.Finished? <==> AllReturn(PreRender.Pass(s.tree.root, SCALE_MATRIX, false, false, env).uploads))
  {
    if !s.hasLua then Err(NullPointer)
    else if scriptError.Some? then Err(scriptError.value)
    else
      var script := ScriptInvoke("render", [Float(delta)]);
      match Draw(s, env)
      case Finished(st, ev) => Ok(Finished(st, [script] + ev))
      case Hangs(ev) => Ok(Hangs([script] + ev))
  }

  /**
   * The draw with `uploadData` as its comment intends (one sub-upload per
   * texture row, see `TransformTex.Uploads`): every upload returns, so the
   * frame always reaches the draw calls.
   */
  function DrawIntended(s: AvatarState, env: ModelPart.Env): (r: (AvatarState, seq<Event>))
    ensures var pass := PreRender.Pass(s.tree.root, SCALE_MATRIX, false, false, env);
      r.0 == s.(tree := s.tree.(root := pass.part))
      && |r.1| == |pass.uploads| + 4
      && (forall i :: 0 <= i < |pass.uploads| ==> r.1[i] == Uploaded(pass.uploads[i]))
      && r.1[|pass.uploads|..] == [UseShader, SetModelView, BindTransforms(1), DrawAvatar]
  {
    var pass := PreRender.Pass(s.tree.root, SCALE_MATRIX, false, false, env);
    var ups := seq(|pass.uploads|, i requires 0 <= i < |pass.uploads| => Uploaded(pass.uploads[i]));
    (s.(tree := s.tree.(root := pass.part)), ups + [UseShader, SetModelView, BindTransforms(1), DrawAvatar])
  }

  /** `tick`: the tick event, invoked with the channel only. */
  function Tick(s: AvatarState, scriptError: Option<Exception>): (r: Result<seq<Event>>)
    ensures !s.hasLua ==> r == Err(NullPointer)
    ensures s.hasLua && scriptError.Some? ==> r == Err(scriptError.value)
    ensures r.Ok? ==> r.value == [ScriptInvoke("tick", [])]
  {
    if !s.hasLua then Err(NullPointer)
    else if scriptError.Some? then Err(scriptError.value)
    else Ok([ScriptInvoke("tick", [])])
  }

  /** `close`: the transform texture is closed first; the Lua state after it, null or not. */
  function Close(s: AvatarState): (r: (seq<Event>, Option<Exception>))
    ensures |r.0| >= 1 && r.0[0] == CloseTransforms
    ensures r.1 == Some(NullPointer) <==> !s.hasLua
  {
    if s.hasLua then ([CloseTransforms, CloseLua], None) else ([CloseTransforms], Some(NullPointer))
  }

  /**
   * What rendering is evidently meant to do: skip the script when there is
   * none, and upload with the intended `uploadData`, so every frame finishes.
   */
  function RenderIntended(s: AvatarState, delta: real, scriptError: Option<Exception>, env: ModelPart.Env)
    : (r: Result<(AvatarState, seq<Event>)>)
    ensures !s.hasLua ==> r == Ok(DrawIntended(s, env))
    ensures s.hasLua && scriptError.Some? ==> r == Err(scriptError.value)
    ensures s.hasLua && scriptError.None? ==> r.Ok?
  {
    if !s.hasLua then Ok(DrawIntended(s, env))
    else if scriptError.Some? then Err(scriptError.value)
    else
      var (st, ev) := DrawIntended(s, env);
      Ok((st, [ScriptInvoke("render", [Float(delta)])] + ev))
  }

  /**
   * A state built without a script can never render or tick: each
   * dereferences the missing Lua state. The intended rendering draws it.
   */
  lemma ScriptlessCannotRender(model: PartDeserializer.Nbt, owner: Entity, b: ModelPart.Builder,
                               delta: real, env: ModelPart.Env)
    requires Buildable(model, b) && Construct(model, None, owner, b).0.Ok?
    ensures var s := Construct(model, None, owner, b).0.value;
      Render(s, delta, None, env) == Err(NullPointer) && Tick(s, None) == Err(NullPointer)
      && Close(s) == ([CloseTransforms], Some(NullPointer))
      && RenderIntended(s, delta, None, env).Ok?
  {
  }

  /**
   * With a Lua state the two renderings agree wherever the written one
   * returns; where it hangs, what it did before hanging is a strict prefix
   * of the intended frame.
   */
  lemma RenderIntendedAgrees(s: AvatarState, delta: real, scriptError: Option<Exception>, env: ModelPart.Env)
    requires s.hasLua
    ensures var r := Render(s, delta, scriptError, env);
      var ri := RenderIntended(s, delta, scriptError, env);
      (r.Err? <==> ri.Err?) && (r.Err? ==> ri.error == r.error)
      && (r.Ok? && r.value.Finished? ==> ri == Ok((r.value.state, r.value.events)))
      && (r.Ok? && r.value.Hangs? ==> r.value.events < ri.value.1)
  {
    var r := Render(s, delta, scriptError, env);
    if r.Ok? {
      var pass := PreRender.Pass(s.tree.root, SCALE_MATRIX, false, false, env);
      var d := Draw(s, env);
      var (st, ev) := DrawIntended(s, env);
      var ri := RenderIntended(s, delta, scriptError, env).value;
      if d.Finished? {
        assert d.events == ev;
      } else {
        assert d.events < ev;
      }
    }
  }

  /**
   * A render that finishes ran the script event before any upload, made
   * exactly the pass's uploads, drew the avatar last, and keeps the tree
   * the pass produced.
   */
  lemma RenderOrder(s: AvatarState, delta: real, env: ModelPart.Env)
    requires s.hasLua
    ensures var r := Render(s, delta, None, env);
      var pass := PreRender.Pass(s.tree.root, SCALE_MATRIX, false, false, env);
      r.Ok? && (r.value.Finished? ==>
        |r.value.events| == |pass.uploads| + 5
        && (forall i :: 1 <= i <= |pass.uploads| ==> r.value.events[i] == Uploaded(pass.uploads[i - 1]))
        && r.value.events[|r.value.events| - 1] == DrawAvatar
        && r.value.state.tree.root == pass.part)
  {
    var pass := PreRender.Pass(s.tree.root, SCALE_MATRIX, false, false, env);
    var d := Draw(s, env);
    if d.Finished? {
      assert d.events[|d.events| - 1] == d.events[|pass.uploads|..][3];
    }
  }

  /**
   * The first frame of an avatar built from a fresh build state with k > 0
   * leaves: the constructor left every part dirty, so the root alone
   * collects, in one upload of 0..k-1 whose buffer holds 16 floats per leaf.
   */
  lemma FirstFrameUpload(model: PartDeserializer.Nbt, luaSource: Option<string>, owner: Entity, env: ModelPart.Env)
    requires Buildable(model, ModelPart.FRESH) && Construct(model, luaSource, owner, ModelPart.FRESH).0.Ok?
    requires 0 < |ModelPart.LeafIndices(Construct(model, luaSource, owner, ModelPart.FRESH).0.value.tree.root)|
               <= ModelPart.GROUP_FIRST + 1
    ensures var s := Construct(model, luaSource, owner, ModelPart.FRESH).0.value;
      var k := |ModelPart.LeafIndices(s.tree.root)|;
      var pass := PreRender.Pass(s.tree.root, SCALE_MATRIX, false, false, env);
      |pass.uploads| == 1 && pass.uploads[0].first == 0 && pass.uploads[0].last == k - 1
      && |pass.uploads[0].data| == 16 * k
  {
    PartDeserializer.ConstructorShaped();
    var d := PartDeserializer.Deserialize(model, ModelPart.FRESH);
    assert d == PartDeserializer.DeserializeWith(model, ModelPart.FRESH, PartDeserializer.CONSTRUCTOR);
    PartDeserializer.DeserializedTree(model, PartDeserializer.CONSTRUCTOR);
    PartDeserializer.DeserializedRootDirty(model, ModelPart.FRESH);
    var s := Construct(model, luaSource, owner, ModelPart.FRESH).0.value;
    assert s.tree == d.0.value;
    PreRender.CollectorPass(s.tree.root, SCALE_MATRIX, false, false, env);
  }

  /**
   * Finding: the first frame of a scripted avatar built from a fresh state
   * finishes exactly when its leaves fit one 64-matrix texture row. With
   * more, the root's upload crosses a row and `render` never returns, after
   * only the script event; the intended rendering finishes the frame.
   */
  lemma FirstFrameHangsBeyondOneRow(model: PartDeserializer.Nbt, source: string, owner: Entity, delta: real, env: ModelPart.Env)
    requires Buildable(model, ModelPart.FRESH) && Construct(model, Some(source), owner, ModelPart.FRESH).0.Ok?
    requires 0 < |ModelPart.LeafIndices(Construct(model, Some(source), owner, ModelPart.FRESH).0.value.tree.root)|
               <= ModelPart.GROUP_FIRST + 1
    ensures var s := Construct(model, Some(source), owner, ModelPart.FRESH).0.value;
      var k := |ModelPart.LeafIndices(s.tree.root)|;
      var r := Render(s, delta, None, env);
      r.Ok? && (r.value.Finished? <==> k <= TransformTex.ROW_MATRICES)
      && (r.value.Hangs? ==> r.value.events == [ScriptInvoke("render", [Float(delta)])])
      && RenderIntended(s, delta, None, env).Ok?
  {
    var s := Construct(model, Some(source), owner, ModelPart.FRESH).0.value;
    FirstFrameUpload(model, Some(source), owner, env);
    OneUploadFrame(s, delta, env, |ModelPart.LeafIndices(s.tree.root)|);
  }

  /** A frame whose pass makes one upload of `0..k-1` finishes iff `k` fits one texture row. */
  lemma OneUploadFrame(s: AvatarState, delta: real, env: ModelPart.Env, k: int)
    requires s.hasLua && k > 0
    requires var us := PreRender.Pass(s.tree.root, SCALE_MATRIX, false, false, env).uploads;
      |us| == 1 && us[0].first == 0 && us[0].last == k - 1
    ensures var r := Render(s, delta, None, env);
      r.Ok? && (r.value.Finished? <==> k <= TransformTex.ROW_MATRICES)
      && (r.value.Hangs? ==> r.value.events == [ScriptInvoke("render", [Float(delta)])])
  {
    var pass := PreRender.Pass(s.tree.root, SCALE_MATRIX, false, false, env);
    assert TransformTex.RowEnd(0) == TransformTex.ROW_MATRICES - 1;
    assert AllReturn(pass.uploads) <==> TransformTex.Returns(0, k - 1);
  }

  /** A script error in the render event stops the frame before the pass: nothing is uploaded or drawn. */
  lemma ScriptErrorStopsFrame(s: AvatarState, delta: real, e: Exception, env: ModelPart.Env)
    requires s.hasLua
    ensures Render(s, delta, Some(e), env) == Err(e) && Tick(s, Some(e)) == Err(e)
  {
  }
}
