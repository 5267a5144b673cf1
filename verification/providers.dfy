/**
 * The provider chain: layers that each try to supply an entity's avatar
 * state, pass the request to the next layer on a miss, and are told the
 * final answer on the way back. A layer is either the memory cache or a
 * plain layer whose attempt is a function of the entity and whose handler
 * does nothing. Layers are nodes of a graph given by their `next` links,
 * since `setNext` can link any layer to any other.
 */
module Providers {
  import opened Wrappers

  type Entity = nat

  /** `None` is Java's `null`: no state (or, for the memory cache, a remembered `null`). */
  datatype Layer<S> =
    | MemoryCache(cache: map<Entity, Option<S>>)
    | Plain(attempt: Entity -> Option<S>)

  /** `attemptGetFor`; for the memory cache, `MemoryCacheAvatarStateProviderLayer.attemptGetFor`. */
  function Attempt<S>(l: Layer<S>, e: Entity): (r: Option<S>)
    ensures l.MemoryCache? ==> (r.Some? <==> e in l.cache && l.cache[e].Some?)
    ensures l.MemoryCache? && r.Some? ==> r == l.cache[e]
  {
    match l
    case MemoryCache(cache) => if e in cache then cache[e] else None
    case Plain(attempt) => attempt(e)
  }

  /**
   * `handleProvidedAvatar`: the memory cache remembers the answer, `null`
   * included (`MemoryCacheAvatarStateProviderLayer.handleProvidedAvatar`); the
   * default does nothing (`AvatarStateProviderLayer.handleProvidedAvatar`).
   */
  function Handled<S>(l: Layer<S>, e: Entity, result: Option<S>): (r: Layer<S>)
    ensures r.MemoryCache? <==> l.MemoryCache?
    ensures l.MemoryCache? ==> e in r.cache && r.cache[e] == result && Attempt(r, e) == result
    ensures l.MemoryCache? ==> forall x :: x != e ==> (x in r.cache <==> x in l.cache) && (x in l.cache ==> r.cache[x] == l.cache[x])
    ensures l.Plain? ==> r == l
  {
    match l
    case MemoryCache(cache) => MemoryCache(cache[e := result])
    case Plain(_) => l
  }

  /** The layers and each one's `next` link. */
  datatype Chain<S> = Chain(layers: seq<Layer<S>>, next: seq<Option<nat>>)

  /** Every link names a layer. */
  predicate Linked<S>(c: Chain<S>) {
    |c.next| == |c.layers| && forall i :: 0 <= i < |c.next| && c.next[i].Some? ==> c.next[i].value < |c.layers|
  }

  /** Every link points further along: the chain has no cycle. */
  predicate Forward<S>(c: Chain<S>) {
    Linked(c) && forall i :: 0 <= i < |c.next| && c.next[i].Some? ==> i < c.next[i].value
  }

  /** The answer, the chain after every handler ran, and the layers handled, in the order they were told. */
  datatype Lookup<S> = Lookup(result: Option<S>, chain: Chain<S>, handled: seq<nat>)

  /** Layer `i` told the answer. */
  function HandleAt<S>(c: Chain<S>, i: nat, e: Entity, result: Option<S>): (r: Chain<S>)
    requires i < |c.layers|
    ensures r.next == c.next && |r.layers| == |c.layers|
    ensures r.layers[i] == Handled(c.layers[i], e, result)
    ensures forall j :: 0 <= j < |c.layers| && j != i ==> r.layers[j] == c.layers[j]
  {
    c.(layers := c.layers[i := Handled(c.layers[i], e, result)])
  }

  /**
   * `AvatarStateProviderLayer.getAvatarStateFor` at layer `i`: its own
   * attempt, else the next layer's answer if there is a next layer; then
   * its handler, with the final answer. `fuel` bounds the depth of the
   * recursion; `None` is a call that never returns.
   */
  function GetFor<S>(c: Chain<S>, i: nat, e: Entity, fuel: nat): (r: Option<Lookup<S>>)
    requires Linked(c) && i < |c.layers|
    ensures r.Some? ==> r.value.chain.next == c.next && |r.value.chain.layers| == |c.layers|
    ensures r.Some? ==> |r.value.handled| >= 1 && r.value.handled[|r.value.handled| - 1] == i
    ensures Attempt(c.layers[i], e).Some? ==>
      r == Some(Lookup(Attempt(c.layers[i], e), HandleAt(c, i, e, Attempt(c.layers[i], e)), [i]))
    ensures Attempt(c.layers[i], e).None? && c.next[i].None? ==> r == Some(Lookup(None, HandleAt(c, i, e, None), [i]))
    decreases fuel
  {
    var own := Attempt(c.layers[i], e);
    if own.Some? || c.next[i].None? then Some(Lookup(own, HandleAt(c, i, e, own), [i]))
    else if fuel == 0 then None
    else
      match GetFor(c, c.next[i].value, e, fuel - 1)
      case None => None
      case Some(l) => Some(Lookup(l.result, HandleAt(l.chain, i, e, l.result), l.handled + [i]))
  }

  /** The reference answer: the first layer along the links whose attempt supplies a state. */
  function FirstHit<S>(c: Chain<S>, i: nat, e: Entity): Option<S>
    requires Forward(c) && i < |c.layers|
    decreases |c.layers| - i
  {
    if Attempt(c.layers[i], e).Some? then Attempt(c.layers[i], e)
    else if c.next[i].None? then None
    else FirstHit(c, c.next[i].value, e)
  }

  /** The layers a lookup from `i` visits, in visiting order. */
  function Path<S>(c: Chain<S>, i: nat, e: Entity): (p: seq<nat>)
    requires Forward(c) && i < |c.layers|
    ensures |p| >= 1 && p[0] == i && |p| <= |c.layers| - i
    ensures forall k :: 0 <= k < |p| ==> i <= p[k] < |c.layers|
    ensures forall k :: 1 <= k < |p| ==> i < p[k]
    decreases |c.layers| - i
  {
    if Attempt(c.layers[i], e).Some? || c.next[i].None? then [i] else [i] + Path(c, c.next[i].value, e)
  }

  /** `c2` is `c` with exactly the layers of `p` told `result`. */
  ghost predicate HandledAlong<S>(c: Chain<S>, c2: Chain<S>, p: seq<nat>, e: Entity, result: Option<S>) {
    c2.next == c.next && |c2.layers| == |c.layers|
    && forall j :: 0 <= j < |c.layers| ==>
      c2.layers[j] == if j in p then Handled(c.layers[j], e, result) else c.layers[j]
  }

  /**
   * `l` is what a lookup from `i` should give: the first supplied state
   * along the links, the path handled deepest first, and exactly the path's
   * layers told the answer.
   */
  ghost predicate Answered<S>(c: Chain<S>, i: nat, e: Entity, l: Lookup<S>)
    requires Forward(c) && i < |c.layers|
  {
    var p := Path(c, i, e);
    l.result == FirstHit(c, i, e)
    && |l.handled| == |p| && (forall k :: 0 <= k < |p| ==> l.handled[k] == p[|p| - 1 - k])
    && HandledAlong(c, l.chain, p, e, l.result)
  }

  /**
   * Without cycles, a lookup returns once it has fuel for the chain's
   * length. Its answer is the first supplied state along the links (or
   * none), every visited layer is told that answer once, deepest first,
   * and no other layer changes.
   */
  lemma {:induction false} LookupAnswersFirstHit<S>(c: Chain<S>, i: nat, e: Entity, fuel: nat)
    requires Forward(c) && i < |c.layers| && fuel >= |c.layers| - i
    ensures GetFor(c, i, e, fuel).Some? && Answered(c, i, e, GetFor(c, i, e, fuel).value)
    decreases |c.layers| - i
  {
    var own := Attempt(c.layers[i], e);
    if own.None? && c.next[i].Some? {
      var n := c.next[i].value;
      LookupAnswersFirstHit(c, n, e, fuel - 1);
      LookupStep(c, i, e, GetFor(c, n, e, fuel - 1).value);
    }
  }

  /** One step of the induction: a miss at `i` passes on to the next layer and then tells `i`. */
  lemma LookupStep<S>(c: Chain<S>, i: nat, e: Entity, l: Lookup<S>)
    requires Forward(c) && i < |c.layers|
    requires Attempt(c.layers[i], e).None? && c.next[i].Some? && Answered(c, c.next[i].value, e, l)
    ensures |l.chain.layers| == |c.layers|
    ensures Answered(c, i, e, Lookup(l.result, HandleAt(l.chain, i, e, l.result), l.handled + [i]))
  {
    var pn := Path(c, c.next[i].value, e);
    assert Path(c, i, e) == [i] + pn;
    ReversedSnoc(l.handled, pn, i);
    HandledStep(c, l.chain, pn, i, e, l.result);
  }

  /** Telling layer `i`, off the path so far, extends the told layers by `i`. */
  lemma HandledStep<S>(c: Chain<S>, c1: Chain<S>, p: seq<nat>, i: nat, e: Entity, result: Option<S>)
    requires HandledAlong(c, c1, p, e, result) && i < |c.layers| && i !in p
    ensures HandledAlong(c, HandleAt(c1, i, e, result), [i] + p, e, result)
  {
    var c2 := HandleAt(c1, i, e, result);
    forall j | 0 <= j < |c.layers|
      ensures c2.layers[j] == if j in [i] + p then Handled(c.layers[j], e, result) else c.layers[j]
    {
      if j != i {
        assert j in [i] + p <==> j in p;
      }
    }
  }

  /** Telling `i` last reverses a path that starts at `i`. */
  lemma ReversedSnoc(h: seq<nat>, p: seq<nat>, i: nat)
    requires |h| == |p| && forall k :: 0 <= k < |p| ==> h[k] == p[|p| - 1 - k]
    ensures |h + [i]| == |[i] + p| && forall k :: 0 <= k < |[i] + p| ==> (h + [i])[k] == ([i] + p)[|[i] + p| - 1 - k]
  {
  }

  /** Every memory cache the lookup visits remembers the answer for the entity, and nothing else changes in it. */
  lemma VisitedCachesRemember<S>(c: Chain<S>, i: nat, e: Entity, j: nat)
    requires Forward(c) && i < |c.layers| && j < |c.layers| && c.layers[j].MemoryCache?
    ensures var r := GetFor(c, i, e, |c.layers|);
      r.Some?
      && (j in Path(c, i, e) ==> r.value.chain.layers[j] == MemoryCache(c.layers[j].cache[e := FirstHit(c, i, e)]))
      && (j !in Path(c, i, e) ==> r.value.chain.layers[j] == c.layers[j])
  {
    LookupAnswersFirstHit(c, i, e, |c.layers|);
  }

  /** A memory cache hit answers at once, and re-remembering the same state leaves the whole chain as it was. */
  lemma MemoryHitIsQuiet<S>(c: Chain<S>, i: nat, e: Entity, fuel: nat)
    requires Linked(c) && i < |c.layers| && c.layers[i].MemoryCache?
    requires e in c.layers[i].cache && c.layers[i].cache[e].Some?
    ensures GetFor(c, i, e, fuel) == Some(Lookup(c.layers[i].cache[e], c, [i]))
  {
    var l := c.layers[i];
    assert l.cache[e := l.cache[e]] == l.cache;
    assert c.layers[i := l] == c.layers;
  }

  /** A layer linked to itself that misses never returns (in Java, the stack overflows). */
  lemma {:induction false} SelfLoopNeverReturns<S>(c: Chain<S>, i: nat, e: Entity, fuel: nat)
    requires Linked(c) && i < |c.layers| && c.next[i] == Some(i) && Attempt(c.layers[i], e).None?
    ensures GetFor(c, i, e, fuel).None?
  {
    if fuel > 0 {
      SelfLoopNeverReturns(c, i, e, fuel - 1);
    }
  }

  // ---------------------------------------------------------------------
  // AvatarStateProvider and its Builder

  /** The two fields of `AvatarStateProvider.Builder`; each attached layer is a new node. */
  datatype ChainBuilder<S> = ChainBuilder(chain: Chain<S>, first: Option<nat>, last: Option<nat>)

  function NewBuilder<S>(): (b: ChainBuilder<S>)
    ensures b.chain.layers == [] && b.first.None? && b.last.None? && Forward(b.chain)
  {
    ChainBuilder(Chain([], []), None, None)
  }

  /** The builder's last layer, if any, exists. */
  predicate BuilderOk<S>(b: ChainBuilder<S>) {
    Linked(b.chain) && (b.last.Some? ==> b.last.value < |b.chain.layers|)
  }

  /**
   * `AvatarStateProvider.Builder.attach`: link the last layer to the new
   * one, or make the new one first; either way it becomes the last.
   */
  function Attach<S>(b: ChainBuilder<S>, layer: Layer<S>): (r: ChainBuilder<S>)
    requires BuilderOk(b)
    ensures BuilderOk(r) && r.chain.layers == b.chain.layers + [layer]
    ensures r.last == Some(|b.chain.layers|) && r.chain.next[|b.chain.layers|].None?
    ensures b.last.None? ==> r.first == Some(|b.chain.layers|)
    ensures b.last.Some? ==> r.first == b.first && r.chain.next[b.last.value] == Some(|b.chain.layers|)
    ensures forall j :: 0 <= j < |b.chain.layers| && b.last != Some(j) ==> r.chain.next[j] == b.chain.next[j]
  {
    var k := |b.chain.layers|;
    var c := Chain(b.chain.layers + [layer], b.chain.next + [None]);
    if b.last.Some? then ChainBuilder(c.(next := c.next[b.last.value := Some(k)]), b.first, Some(k))
    else ChainBuilder(c, Some(k), Some(k))
  }

  /** Attach the layers in order. */
  function AttachAll<S>(b: ChainBuilder<S>, ls: seq<Layer<S>>): (r: ChainBuilder<S>)
    requires BuilderOk(b)
    ensures BuilderOk(r)
  {
    if ls == [] then b else Attach(AttachAll(b, ls[..|ls| - 1]), ls[|ls| - 1])
  }

  /** Links running straight through the layers in attach order. */
  ghost predicate Straight<S>(c: Chain<S>) {
    |c.next| == |c.layers|
    && forall k :: 0 <= k < |c.next| ==> c.next[k] == if k + 1 < |c.next| then Some(k + 1) else None
  }

  /** Attaching L1..Ln to a new builder gives the chain L1 -> ... -> Ln, first L1 and last Ln. */
  lemma {:induction false} AttachAllIsStraight<S>(ls: seq<Layer<S>>)
    ensures var b := AttachAll(NewBuilder(), ls);
      b.chain.layers == ls && Straight(b.chain) && Forward(b.chain)
      && (ls == [] ==> b.first.None? && b.last.None?)
      && (ls != [] ==> b.first == Some(0) && b.last == Some(|ls| - 1))
  {
    if ls != [] {
      var init := ls[..|ls| - 1];
      AttachAllIsStraight(init);
      AttachKeepsStraight(AttachAll(NewBuilder(), init), ls[|ls| - 1]);
      assert init + [ls[|ls| - 1]] == ls;
    }
  }

  /** Attaching to a straight chain whose first and last are its ends keeps it so. */
  lemma AttachKeepsStraight<S>(b: ChainBuilder<S>, layer: Layer<S>)
    requires BuilderOk(b) && Straight(b.chain)
    requires b.chain.layers == [] ==> b.first.None? && b.last.None?
    requires b.chain.layers != [] ==> b.first == Some(0) && b.last == Some(|b.chain.layers| - 1)
    ensures var r := Attach(b, layer);
      Straight(r.chain) && Forward(r.chain) && r.first == Some(0) && r.last == Some(|b.chain.layers|)
  {
  }

  /** The `AvatarStateProvider` constructor and `Builder.build`. */
  datatype Provider<S> = Provider(chain: Chain<S>, first: Option<nat>)

  function Build<S>(b: ChainBuilder<S>): (p: Provider<S>)
    ensures p.chain == b.chain && p.first == b.first
  {
    Provider(b.chain, b.first)
  }

  /**
   * `AvatarStateProvider.getAvatarFor`: the first layer's lookup; with
   * no layer attached the first layer is null and the call fails.
   */
  function GetAvatarFor<S>(p: Provider<S>, e: Entity): (r: Result<Lookup<S>>)
    requires Forward(p.chain) && (p.first.Some? ==> p.first.value < |p.chain.layers|)
    ensures r.Err? <==> p.first.None?
    ensures r.Err? ==> r.error == NullPointer
    ensures r.Ok? ==> r.value.result == FirstHit(p.chain, p.first.value, e)
  {
    if p.first.None? then Err(NullPointer)
    else
      LookupAnswersFirstHit(p.chain, p.first.value, e, |p.chain.layers|);
      Ok(GetFor(p.chain, p.first.value, e, |p.chain.layers|).value)
  }

  /** The reference answer for layers in a row: the first one that supplies a state. */
  function FirstOf<S>(ls: seq<Layer<S>>, e: Entity): Option<S> {
    if ls == [] then None else if Attempt(ls[0], e).Some? then Attempt(ls[0], e) else FirstOf(ls[1..], e)
  }

  lemma {:induction false} StraightFirstHit<S>(c: Chain<S>, i: nat, e: Entity)
    requires Forward(c) && Straight(c) && i < |c.layers|
    ensures FirstHit(c, i, e) == FirstOf(c.layers[i..], e)
    decreases |c.layers| - i
  {
    assert c.layers[i..][1..] == c.layers[i + 1..];
    if i + 1 < |c.layers| {
      StraightFirstHit(c, i + 1, e);
    }
  }

  /**
   * A provider built from L1..Ln answers the first state any Li supplies,
   * asking them in attach order; built from no layers, it fails.
   */
  lemma BuiltProviderAnswers<S>(ls: seq<Layer<S>>, e: Entity)
    ensures var p := Build(AttachAll(NewBuilder(), ls));
      Forward(p.chain) && (p.first.Some? ==> p.first.value < |p.chain.layers|)
      && (ls == [] ==> GetAvatarFor(p, e) == Err(NullPointer))
      && (ls != [] ==> GetAvatarFor(p, e).Ok? && GetAvatarFor(p, e).value.result == FirstOf(ls, e))
  {
    AttachAllIsStraight(ls);
    var p := Build(AttachAll(NewBuilder(), ls));
    if ls != [] {
      StraightFirstHit(p.chain, 0, e);
      assert ls[0..] == ls;
    }
  }
}
