/**
 * `EventsApi`: the global `events` table with its two channels, `tick` and
 * `render`. A channel is a Lua table whose integer keys hold the registered
 * handlers; both channels share one metatable that rejects new keys, hides
 * itself and serves `register`, `clear` and `invoke` through `__index`.
 *
 * A channel's raw contents are a map from keys to values (Lua stores no nil
 * values). `rawLen` may answer any border of the table, so the border it
 * answers is an argument. What a handler does when called is code this
 * model cannot see: it is the `Handler` parameter, which may change the
 * channel and may raise.
 */
module EventsApi {
  import opened Wrappers
  import opened LuaValues

  const MODIFY_ERROR := "Cannot modify values in event!"

  /** The keys of the `__index` table `pushMetatable` builds. */
  const FUNCTIONS: set<string> := {"register", "clear", "invoke"}

  /** The channels `addTo` installs. */
  const CHANNELS: set<string> := {"tick", "render"}

  /** The shared channel metatable, field by field. */
  datatype Metatable = Metatable(newindexError: string, metatableField: Value, index: set<string>)

  /** `pushMetatable`. */
  const CHANNEL_METATABLE := Metatable(MODIFY_ERROR, Bool(false), FUNCTIONS)

  /** A channel: its raw integer-keyed slots and its metatable. */
  datatype Channel = Channel(slots: map<int, Value>, meta: Option<Metatable>)

  /** The `events` global: its raw fields and its (absent) metatable. */
  datatype Events = Events(channels: map<string, Channel>, meta: Option<Metatable>)

  /** A table holds no nil values. */
  predicate NoNil(c: Channel) {
    forall i :: i in c.slots ==> !c.slots[i].Nil?
  }

  /** `n` is a border: slot `n` is set (or `n` is 0) and slot `n + 1` is not. */
  predicate IsBorder(c: Channel, n: nat) {
    (n == 0 || n in c.slots) && n + 1 !in c.slots
  }

  /** The slots are exactly `1..n`: what registering alone produces. */
  ghost predicate Dense(c: Channel, n: nat) {
    NoNil(c) && forall i :: i in c.slots <==> 1 <= i <= n
  }

  /** `addTo`. Two empty channels sharing the metatable; `events` itself has none. */
  function AddTo(): (e: Events)
    ensures e.channels.Keys == CHANNELS && e.meta.None?
    ensures forall name :: name in e.channels ==>
      e.channels[name].slots == map[] && e.channels[name].meta == Some(CHANNEL_METATABLE)
  {
    var c := Channel(map[], Some(CHANNEL_METATABLE));
    Events(map["tick" := c, "render" := c], None)
  }

  /** `getmetatable(channel)`: the hidden metatable answers its `__metatable` field. */
  function GetMetatable(c: Channel): (r: Value)
    requires c.meta.Some?
  {
    c.meta.value.metatableField
  }

  /**
   * Reading `channel[key]`: a raw slot, else through `__index` the functions
   * table, which has only string keys.
   */
  function Get(c: Channel, key: Value): (r: Value)
    requires c.meta == Some(CHANNEL_METATABLE)
    ensures key.Int? && key.i in c.slots ==> r == c.slots[key.i]
    ensures key.Int? && key.i !in c.slots ==> r == Nil
    ensures key.Str? ==> (r.Function? <==> key.s in FUNCTIONS)
  {
    if key.Int? && key.i in c.slots then c.slots[key.i]
    else if key.Str? && key.s in c.meta.value.index then Function(key.s)
    else Nil
  }

  /**
   * The `__newindex` function of `pushMetatable`: `channel[key] = v`. A present key is written raw (nil
   * removes it); an absent key goes to `__newindex`, which raises.
   */
  function Assign(c: Channel, key: Value, v: Value): (r: Result<Channel>)
    requires c.meta == Some(CHANNEL_METATABLE)
    ensures r.Err? <==> !(key.Int? && key.i in c.slots)
    ensures r.Err? ==> r.error == LuaRuntime(MODIFY_ERROR)
    ensures r.Ok? ==> r.value.slots.Keys <= c.slots.Keys && r.value.meta == c.meta
    ensures r.Ok? && !v.Nil? ==> r.value.slots == c.slots[key.i := v]
  {
    if key.Int? && key.i in c.slots then
      if v.Nil? then Ok(c.(slots := c.slots - {key.i})) else Ok(c.(slots := c.slots[key.i := v]))
    else Err(LuaRuntime(MODIFY_ERROR))
  }

  /**
   * The `register` function of `pushMetatable`: `register(t, f)`. Arguments are checked in order; the
   * function is stored raw one past the border `n` that `rawLen` answers,
   * so the write guard is bypassed.
   */
  function Register(t: Option<Channel>, f: Value, n: nat): (r: Result<Channel>)
    requires t.Some? ==> IsBorder(t.value, n)
    ensures t.None? ==> r == Err(BadArgument(1))
    ensures t.Some? && !f.Function? ==> r == Err(BadArgument(2))
    ensures r.Ok? <==> t.Some? && f.Function?
    ensures r.Ok? ==>
      n + 1 !in t.value.slots && r.value.slots == t.value.slots[n + 1 := f] && r.value.meta == t.value.meta
  {
    if t.None? then Err(BadArgument(1))
    else if !f.Function? then Err(BadArgument(2))
    else Ok(t.value.(slots := t.value.slots[n + 1 := f]))
  }

  /**
   * The `clear` function of `pushMetatable`, as written: `clear(t)` checks its argument and then only
   * replaces stack slot 1 with a fresh table. The channel is left as it was.
   */
  function Clear(t: Option<Channel>): (r: Result<Channel>)
    ensures t.None? <==> r == Err(BadArgument(1))
    ensures t.Some? ==> r == Ok(t.value)
  {
    if t.None? then Err(BadArgument(1)) else Ok(t.value)
  }

  /** What `clear` is evidently meant to do: drop every registered handler. */
  function ClearIntended(t: Option<Channel>): (r: Result<Channel>)
    ensures t.None? <==> r == Err(BadArgument(1))
    ensures t.Some? ==> r.Ok? && r.value.slots == map[] && r.value.meta == t.value.meta
  {
    if t.None? then Err(BadArgument(1)) else Ok(t.value.(slots := map[]))
  }

  /**
   * A handler call: the slots it leaves in the channel (a script cannot
   * reach the hidden metatable), and the error it raised, if any.
   */
  datatype Outcome = Outcome(slots: map<int, Value>, error: Option<Exception>)

  /** Calling value `f` with the extra arguments while the channel is `c`. */
  type Handler = (Value, seq<Value>, Channel) -> Outcome

  /** The end of an `invoke`: the channel, the calls made in order, and the error that stopped it. */
  datatype Invoked = Invoked(channel: Channel, calls: seq<(Value, seq<Value>)>, error: Option<Exception>)

  /**
   * The loop of the `invoke` function: from slot `i` to the snapshot `n`, read the slot from the
   * live channel, call it with `rest`; the first error ends the loop.
   */
  function InvokeFrom(c: Channel, i: nat, n: nat, rest: seq<Value>, call: Handler): (r: Invoked)
    requires 1 <= i <= n + 1
    requires c.meta == Some(CHANNEL_METATABLE)
    decreases n + 1 - i
    ensures |r.calls| <= n + 1 - i
    ensures r.error.None? ==> |r.calls| == n + 1 - i
    ensures r.error.Some? ==> 1 <= |r.calls|
    ensures forall k :: 0 <= k < |r.calls| ==> r.calls[k].1 == rest
    ensures r.channel.meta == c.meta
  {
    if i > n then Invoked(c, [], None)
    else
      var f := Get(c, Int(i));
      var o := call(f, rest, c);
      if o.error.Some? then Invoked(c.(slots := o.slots), [(f, rest)], o.error)
      else
        var r := InvokeFrom(c.(slots := o.slots), i + 1, n, rest, call);
        Invoked(r.channel, [(f, rest)] + r.calls, r.error)
  }

  /**
   * The `invoke` function of `pushMetatable`: `invoke(t, ...)`. The number of handlers is the border `n`
   * read once before the loop; every argument after the table goes to each
   * handler.
   */
  function Invoke(t: Option<Channel>, rest: seq<Value>, n: nat, call: Handler): (r: Result<Invoked>)
    requires t.Some? ==> t.value.meta == Some(CHANNEL_METATABLE) && IsBorder(t.value, n)
    ensures t.None? <==> r == Err(BadArgument(1))
    ensures r.Ok? ==> |r.value.calls| <= n && (r.value.error.None? ==> |r.value.calls| == n)
  {
    if t.None? then Err(BadArgument(1)) else Ok(InvokeFrom(t.value, 1, n, rest, call))
  }

  /** Handlers that are functions leave the channel alone and return normally. */
  ghost predicate Passive(call: Handler) {
    forall f: Value, a, d :: f.Function? ==> call(f, a, d) == Outcome(d.slots, None)
  }

  /** Lua's error for calling a value with no `__call` metamethod. */
  function CallError(v: Value): string {
    "attempt to call a " + TypeName(v) + " value"
  }

  /**
   * `state.call` on a value that is not a function raises, as `lua_call` does:
   * a hole read through `getTable` is nil, and a slot a script overwrote with
   * a number, string or table has no `__call` either.
   */
  ghost predicate NonFunctionsRaise(call: Handler) {
    forall f: Value, a, d :: !f.Function? ==> call(f, a, d) == Outcome(d.slots, Some(LuaRuntime(CallError(f))))
  }

  /** When slots `i..n` hold functions that return normally, `invoke` calls them in order, each with the extra arguments. */
  lemma {:induction false} InvokeCallsInOrder(c: Channel, i: nat, n: nat, rest: seq<Value>, call: Handler)
    requires 1 <= i <= n + 1 && Passive(call) && c.meta == Some(CHANNEL_METATABLE)
    requires forall j :: i <= j <= n ==> Get(c, Int(j)).Function?
    decreases n + 1 - i
    ensures var r := InvokeFrom(c, i, n, rest, call);
      r.error.None? && r.channel == c && |r.calls| == n + 1 - i
      && forall k :: 0 <= k < |r.calls| ==> r.calls[k] == (Get(c, Int(i + k)), rest)
  {
    if i <= n {
      var r := InvokeFrom(c, i, n, rest, call);
      InvokeCallsInOrder(c, i + 1, n, rest, call);
      var tail := InvokeFrom(c, i + 1, n, rest, call);
      assert r.calls == [(Get(c, Int(i)), rest)] + tail.calls;
      forall k | 0 <= k < |r.calls|
        ensures r.calls[k] == (Get(c, Int(i + k)), rest)
      {
        if k > 0 {
          assert r.calls[k] == tail.calls[k - 1];
        }
      }
    }
  }

  /**
   * Slot `j` is the first of `i..n` that does not hold a function (a hole a
   * script made with `events.tick[j] = nil`, or a value it wrote over a
   * handler): the loop calls `i..j` and stops at `j` with Lua's call error.
   */
  lemma {:induction false} InvokeStopsAtNonFunction(c: Channel, i: nat, j: nat, n: nat, rest: seq<Value>, call: Handler)
    requires 1 <= i <= j <= n && c.meta == Some(CHANNEL_METATABLE)
    requires Passive(call) && NonFunctionsRaise(call)
    requires forall k :: i <= k < j ==> Get(c, Int(k)).Function?
    requires !Get(c, Int(j)).Function?
    decreases j - i
    ensures var r := InvokeFrom(c, i, n, rest, call);
      r.channel == c && |r.calls| == j + 1 - i
      && r.error == Some(LuaRuntime(CallError(Get(c, Int(j)))))
      && forall k :: 0 <= k < |r.calls| ==> r.calls[k] == (Get(c, Int(i + k)), rest)
  {
    var r := InvokeFrom(c, i, n, rest, call);
    if i < j {
      InvokeStopsAtNonFunction(c, i + 1, j, n, rest, call);
      var tail := InvokeFrom(c, i + 1, n, rest, call);
      assert r.calls == [(Get(c, Int(i)), rest)] + tail.calls;
      forall k | 0 <= k < |r.calls|
        ensures r.calls[k] == (Get(c, Int(i + k)), rest)
      {
        if k > 0 {
          assert r.calls[k] == tail.calls[k - 1];
        }
      }
    }
  }

  /**
   * Register `f` and `g`, then `events.tick[1] = nil`: the length operator
   * may answer either border. At border 2 `invoke` raises at the hole before
   * `g` runs; at border 0 it calls nothing.
   */
  lemma HoleStopsInvoke(f: Value, g: Value, rest: seq<Value>, call: Handler)
    requires f.Function? && g.Function? && Passive(call) && NonFunctionsRaise(call)
    ensures var c := RegisterAll(AddTo().channels["tick"], [f, g]);
      var holed := Assign(c, Int(1), Nil);
      holed.Ok? && holed.value.slots == map[2 := g]
      && IsBorder(holed.value, 0) && IsBorder(holed.value, 2)
      && Invoke(Some(holed.value), rest, 2, call)
         == Ok(Invoked(holed.value, [(Nil, rest)], Some(LuaRuntime("attempt to call a nil value"))))
      && Invoke(Some(holed.value), rest, 0, call) == Ok(Invoked(holed.value, [], None))
  {
    var c := RegisterAll(AddTo().channels["tick"], [f, g]);
    var holed := Assign(c, Int(1), Nil).value;
    assert c.slots[0 + 1] == [f, g][0] && c.slots[1 + 1] == [f, g][1];
    assert Dense(c, 2);
    assert forall i :: i in c.slots <==> i in {1, 2};
    assert c.slots.Keys == {1, 2};
    assert holed.slots == map[2 := g];
    assert IsBorder(holed, 0) && IsBorder(holed, 2);
    InvokeStopsAtNonFunction(holed, 1, 1, 2, rest, call);
    var r := InvokeFrom(holed, 1, 2, rest, call);
    assert Get(holed, Int(1)) == Nil;
    assert r.calls == [(Nil, rest)];
    assert TypeName(Nil) == "nil";
    assert CallError(Nil) == "attempt to call a nil value";
    assert r == Invoked(holed, [(Nil, rest)], Some(LuaRuntime("attempt to call a nil value")));
  }

  /** A handler that registers another one while the loop runs does not get it called. */
  lemma RegisteredDuringInvokeNotCalled(c: Channel, n: nat, rest: seq<Value>, call: Handler)
    requires c.meta == Some(CHANNEL_METATABLE) && IsBorder(c, n)
    ensures var r := Invoke(Some(c), rest, n, call);
      r.Ok? && |r.value.calls| <= n
  {
  }

  /** The first handler's error ends the loop: the later handlers are skipped. */
  lemma ErrorSkipsRest(c: Channel, n: nat, rest: seq<Value>, call: Handler, e: Exception)
    requires c.meta == Some(CHANNEL_METATABLE) && IsBorder(c, n) && n >= 2
    requires forall f, a, d :: call(f, a, d) == Outcome(d.slots, Some(e))
    ensures Invoke(Some(c), rest, n, call) == Ok(Invoked(c, [(Get(c, Int(1)), rest)], Some(e)))
  {
  }

  /** On a channel filled by registering alone, the slots run `1..n`, so `n` is its only border. */
  lemma DenseBorder(c: Channel, n: nat, m: nat)
    requires Dense(c, n) && IsBorder(c, m)
    ensures m == n
  {
  }

  /** Registering on a dense channel keeps it dense, one longer, with `f` last. */
  lemma RegisterExtends(c: Channel, n: nat, f: Value)
    requires Dense(c, n) && f.Function?
    ensures IsBorder(c, n)
    ensures var r := Register(Some(c), f, n);
      r.Ok? && Dense(r.value, n + 1) && r.value.slots[n + 1] == f
  {
    assert n + 1 !in c.slots;
  }

  /** The handlers registered in order, from an empty channel. */
  function RegisterAll(c: Channel, fs: seq<Value>): (r: Channel)
    requires Dense(c, 0) && forall k :: 0 <= k < |fs| ==> fs[k].Function?
    ensures Dense(r, |fs|) && r.meta == c.meta
    ensures forall k :: 0 <= k < |fs| ==> r.slots[k + 1] == fs[k]
  {
    if fs == [] then c
    else
      var prev := RegisterAll(c, fs[..|fs| - 1]);
      RegisterExtends(prev, |fs| - 1, fs[|fs| - 1]);
      Register(Some(prev), fs[|fs| - 1], |fs| - 1).value
  }

  /** Registered handlers run in registration order, each with the extra arguments. */
  lemma RegisterThenInvoke(fs: seq<Value>, rest: seq<Value>, call: Handler)
    requires forall k :: 0 <= k < |fs| ==> fs[k].Function?
    requires Passive(call)
    ensures var c := RegisterAll(AddTo().channels["tick"], fs);
      IsBorder(c, |fs|)
      && Invoke(Some(c), rest, |fs|, call).Ok?
      && Invoke(Some(c), rest, |fs|, call).value.calls == seq(|fs|, k requires 0 <= k < |fs| => (fs[k], rest))
  {
    var c := RegisterAll(AddTo().channels["tick"], fs);
    InvokeDense(c, fs, rest, call);
  }

  /** Invoking a channel whose slots `1..n` hold `fs` calls `fs` in order. */
  lemma InvokeDense(c: Channel, fs: seq<Value>, rest: seq<Value>, call: Handler)
    requires Dense(c, |fs|) && c.meta == Some(CHANNEL_METATABLE) && Passive(call)
    requires forall k :: 0 <= k < |fs| ==> fs[k].Function?
    requires forall k :: 0 <= k < |fs| ==> c.slots[k + 1] == fs[k]
    ensures IsBorder(c, |fs|)
    ensures Invoke(Some(c), rest, |fs|, call).Ok?
    ensures Invoke(Some(c), rest, |fs|, call).value.calls == seq(|fs|, k requires 0 <= k < |fs| => (fs[k], rest))
  {
    assert |fs| + 1 !in c.slots;
    forall j | 1 <= j <= |fs| ensures Get(c, Int(j)).Function? {
      assert c.slots[(j - 1) + 1] == fs[j - 1];
    }
    InvokeCallsInOrder(c, 1, |fs|, rest, call);
    var r := InvokeFrom(c, 1, |fs|, rest, call);
    forall k | 0 <= k < |fs| ensures r.calls[k] == (fs[k], rest) {
      assert k + 1 in c.slots;
    }
  }

  /**
   * As written, a channel filled by `register` still runs every registered
   * handler, in order, on the `invoke` after `clear`.
   */
  lemma ClearKeepsHandlers(c: Channel, n: nat, rest: seq<Value>, call: Handler)
    requires c.meta == Some(CHANNEL_METATABLE) && Dense(c, n) && n >= 1 && Passive(call)
    requires forall i :: i in c.slots ==> c.slots[i].Function?
    ensures IsBorder(c, n)
    ensures var cleared := Clear(Some(c)).value;
      var r := Invoke(Some(cleared), rest, n, call).value;
      r.error.None? && r.channel == c && |r.calls| == n
      && forall k :: 0 <= k < n ==> r.calls[k] == (c.slots[k + 1], rest)
  {
    assert n + 1 !in c.slots;
    forall j | 1 <= j <= n ensures Get(c, Int(j)).Function? {
      assert j in c.slots;
    }
    InvokeCallsInOrder(c, 1, n, rest, call);
    var r := InvokeFrom(c, 1, n, rest, call);
    forall k | 0 <= k < n ensures r.calls[k] == (c.slots[k + 1], rest) {
      assert k + 1 in c.slots;
    }
  }

  /** With the intended `clear`, the next `invoke` calls nothing: the only border left is 0. */
  lemma ClearIntendedEmpties(c: Channel, m: nat, rest: seq<Value>, call: Handler)
    requires c.meta == Some(CHANNEL_METATABLE)
    ensures var cleared := ClearIntended(Some(c)).value;
      (IsBorder(cleared, m) <==> m == 0)
      && Invoke(Some(cleared), rest, 0, call).value.calls == []
  {
  }

  /** Writing a new key into a channel raises; the metatable stays hidden. */
  lemma WriteGuard(c: Channel, key: string, v: Value)
    requires c.meta == Some(CHANNEL_METATABLE)
    ensures Assign(c, Str(key), v) == Err(LuaRuntime(MODIFY_ERROR))
    ensures GetMetatable(c) == Bool(false)
  {
  }
}
