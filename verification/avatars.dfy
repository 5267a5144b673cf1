/**
 * `Avatar`, the shared resources of one avatar and the states instantiated
 * from it per entity, and `AvatarStateManager`, which answers an entity's
 * states from the avatars of its card deck. The GPU resources an avatar
 * holds (VAO, texture) are not modelled; the world of avatars and decks is
 * an explicit value, because Java shares them by reference.
 */
module Avatars {
  import opened Wrappers
  import opened AvatarStates
  import ModelPart
  import PartDeserializer
  import Cards

  /** The fields of `Avatar`; `None` is a null field. */
  datatype Avatar = Avatar(states: map<Entity, AvatarState>, ready: bool,
                           model: Option<PartDeserializer.Nbt>, luaSource: Option<string>)

  /** A newly created avatar: no states, not ready, nothing stored. */
  const NEW_AVATAR := Avatar(map[], false, None, None)

  const NOT_READY := "Tried to instantiate avatar which was not yet ready!"

  /** Every recorded state belongs to the entity it is recorded under. */
  ghost predicate Recorded(a: Avatar) {
    forall x :: x in a.states ==> a.states[x].owner == x
  }

  /** The stored model, if any, can be built from build state `b` (see `Buildable`). */
  predicate Loadable(a: Avatar, b: ModelPart.Builder) {
    a.model.Some? ==> Buildable(a.model.value, b)
  }

  /** `Avatar.complete`: ready, with nothing stored. */
  function Complete(a: Avatar): (r: Avatar)
    ensures r.ready && r.states == a.states && r.model == a.model && r.luaSource == a.luaSource
  {
    a.(ready := true)
  }

  /** `Avatar.fill`: store the model and script, and become ready. */
  function Fill(a: Avatar, model: Option<PartDeserializer.Nbt>, luaSource: Option<string>): (r: Avatar)
    ensures r.ready && r.states == a.states && r.model == model && r.luaSource == luaSource
  {
    a.(ready := true, model := model, luaSource := luaSource)
  }

  /** What asking an avatar for a state gives: the state or the exception, the avatar after, the build state after. */
  datatype Got = Got(state: Result<AvatarState>, avatar: Avatar, builder: ModelPart.Builder)

  /**
   * `Avatar.instantiate`: refuse an avatar that is not ready; otherwise
   * construct a state from the stored model and script (a null model fails
   * on its first use) and record it under the owner.
   */
  function Instantiate(a: Avatar, owner: Entity, b: ModelPart.Builder): (r: Got)
    requires Loadable(a, b)
    ensures !a.ready ==> r == Got(Err(IllegalState(NOT_READY)), a, b)
    ensures a.ready && a.model.None? ==> r == Got(Err(NullPointer), a, b)
    ensures r.state.Err? ==> r.avatar == a
    ensures r.state.Ok? ==>
      a.ready && a.model.Some?
      && r.avatar == a.(states := a.states[owner := r.state.value])
      && r.builder == ModelPart.FRESH
      && PartDeserializer.Deserialize(a.model.value, b).0 == Ok(r.state.value.tree)
      && r.state.value.owner == owner && r.state.value.setup == Setup(a.luaSource)
    ensures a.ready && a.model.Some? && PartDeserializer.Deserialize(a.model.value, b).0.Err? ==>
      r.state == Err(PartDeserializer.Deserialize(a.model.value, b).0.error)
  {
    if !a.ready then Got(Err(IllegalState(NOT_READY)), a, b)
    else if a.model.None? then Got(Err(NullPointer), a, b)
    else
      var (s, b') := Construct(a.model.value, a.luaSource, owner, b);
      if s.Err? then Got(s, a, b') else Got(s, a.(states := a.states[owner := s.value]), b')
  }

  /** `Avatar.getStateFor`: the recorded state, or a new one. */
  function GetStateFor(a: Avatar, e: Entity, b: ModelPart.Builder): (r: Got)
    requires e !in a.states ==> Loadable(a, b)
    ensures e in a.states ==> r == Got(Ok(a.states[e]), a, b)
    ensures e !in a.states ==> r == Instantiate(a, e, b)
  {
    if e in a.states then Got(Ok(a.states[e]), a, b) else Instantiate(a, e, b)
  }

  /** Asking again gives the same state and changes nothing, whatever the build state. */
  lemma StateForIsStable(a: Avatar, e: Entity, b: ModelPart.Builder, b': ModelPart.Builder)
    requires e !in a.states ==> Loadable(a, b)
    requires GetStateFor(a, e, b).state.Ok?
    ensures var g := GetStateFor(a, e, b);
      e in g.avatar.states && GetStateFor(g.avatar, e, b') == Got(g.state, g.avatar, b')
  {
  }

  /** Only the asking entity's entry can change, readiness and stored data never, and ownership is kept. */
  lemma StateForKeepsOthers(a: Avatar, e: Entity, b: ModelPart.Builder)
    requires e !in a.states ==> Loadable(a, b)
    ensures var g := GetStateFor(a, e, b);
      g.avatar.ready == a.ready && g.avatar.model == a.model && g.avatar.luaSource == a.luaSource
      && (forall x :: x != e ==> (x in g.avatar.states <==> x in a.states))
      && (forall x :: x in a.states ==> x in g.avatar.states && g.avatar.states[x] == a.states[x])
      && (Recorded(a) ==> Recorded(g.avatar))
  {
    var g := GetStateFor(a, e, b);
    if e !in a.states && g.state.Ok? {
      assert g.avatar == a.(states := a.states[e := g.state.value]);
      assert g.state.value.owner == e;
    } else {
      assert g.avatar == a;
    }
  }

  /** An avatar that was never filled or completed refuses; one completed without a fill fails on the null model. */
  lemma UnfilledAvatars(e: Entity, b: ModelPart.Builder)
    ensures GetStateFor(NEW_AVATAR, e, b).state == Err(IllegalState(NOT_READY))
    ensures GetStateFor(Complete(NEW_AVATAR), e, b).state == Err(NullPointer)
  {
  }

  /** After a fill the avatar is never refused: the answer is whatever constructing from the filled model gives. */
  lemma FillMakesInstantiable(a: Avatar, model: PartDeserializer.Nbt, luaSource: Option<string>,
                              e: Entity, b: ModelPart.Builder)
    requires e !in a.states && Buildable(model, b)
    ensures var g := GetStateFor(Fill(a, Some(model), luaSource), e, b);
      (g.state, g.builder) == Construct(model, luaSource, e, b)
      && (g.state.Ok? ==> g.state.value.owner == e && (g.state.value.hasLua <==> luaSource.Some?))
  {
  }

  // ---------------------------------------------------------------------
  // AvatarStateManager

  type DeckId = nat

  /** The two maps of `AvatarStateManager`: the deck given to each entity and the remembered answers. */
  datatype Manager = Manager(decks: map<Entity, DeckId>, cache: map<Entity, seq<AvatarState>>)

  const NEW_MANAGER := Manager(map[], map[])

  /** The shared objects: avatars and decks by identity, and the static build state. */
  datatype World = World(avatars: seq<Avatar>, decks: seq<Cards.Deck>, builder: ModelPart.Builder)

  /** Every deck is well formed and names existing avatars; every avatar can be built from the current or a fresh build state. */
  ghost predicate WorldOk(w: World) {
    (forall i :: 0 <= i < |w.decks| ==>
      Cards.Shaped(w.decks[i]) && Cards.Consistent(w.decks[i]) && Cards.CardsIn(w.decks[i], |w.avatars|))
    && (forall i :: 0 <= i < |w.avatars| ==>
      Recorded(w.avatars[i]) && Loadable(w.avatars[i], w.builder) && Loadable(w.avatars[i], ModelPart.FRESH))
  }

  /** Every entity's deck exists, and every remembered state belongs to the entity it is remembered for. */
  ghost predicate ManagerOk(m: Manager, w: World) {
    (forall e :: e in m.decks ==> m.decks[e] < |w.decks|)
    && forall e, k :: e in m.cache && 0 <= k < |m.cache[e]| ==> m.cache[e][k].owner == e
  }

  /** The avatars only gain recorded states: nothing else about them changes. */
  ghost predicate Grows(avs: seq<Avatar>, avs': seq<Avatar>) {
    |avs'| == |avs|
    && forall i :: 0 <= i < |avs| ==>
      avs'[i].ready == avs[i].ready && avs'[i].model == avs[i].model && avs'[i].luaSource == avs[i].luaSource
      && forall x :: x in avs[i].states ==> x in avs'[i].states && avs'[i].states[x] == avs[i].states[x]
  }

  /** Every listed avatar exists. */
  predicate IdsIn(ids: seq<Cards.AvatarId>, n: nat) {
    forall j :: 0 <= j < |ids| ==> ids[j] < n
  }

  /** Every ready listed avatar has a state for `e`. */
  ghost predicate HasStates(avs: seq<Avatar>, ids: seq<Cards.AvatarId>, e: Entity)
    requires IdsIn(ids, |avs|)
  {
    forall j :: 0 <= j < |ids| && avs[ids[j]].ready ==> e in avs[ids[j]].states
  }

  /** The reference answer: `e`'s state in each ready listed avatar, in list order. */
  function Collect(avs: seq<Avatar>, ids: seq<Cards.AvatarId>, e: Entity): seq<AvatarState>
    requires IdsIn(ids, |avs|) && HasStates(avs, ids, e)
  {
    if ids == [] then []
    else (if avs[ids[0]].ready then [avs[ids[0]].states[e]] else []) + Collect(avs, ids[1..], e)
  }

  /** Whether every listed avatar is ready. */
  predicate AllReady(avs: seq<Avatar>, ids: seq<Cards.AvatarId>)
    requires IdsIn(ids, |avs|)
  {
    forall j :: 0 <= j < |ids| ==> avs[ids[j]].ready
  }

  /** Growing keeps the states already collected. */
  lemma {:induction false} CollectGrows(avs: seq<Avatar>, avs': seq<Avatar>, ids: seq<Cards.AvatarId>, e: Entity)
    requires Grows(avs, avs') && IdsIn(ids, |avs|) && HasStates(avs, ids, e)
    ensures HasStates(avs', ids, e) && Collect(avs', ids, e) == Collect(avs, ids, e)
  {
    if ids != [] {
      CollectGrows(avs, avs', ids[1..], e);
    }
  }

  /** Every state in the reference answer belongs to `e`. */
  lemma {:induction false} CollectOwned(avs: seq<Avatar>, ids: seq<Cards.AvatarId>, e: Entity)
    requires IdsIn(ids, |avs|) && HasStates(avs, ids, e)
    requires forall i :: 0 <= i < |avs| ==> Recorded(avs[i])
    ensures forall k :: 0 <= k < |Collect(avs, ids, e)| ==> Collect(avs, ids, e)[k].owner == e
  {
    if ids != [] {
      CollectOwned(avs, ids[1..], e);
    }
  }

  /**
   * The loop of `AvatarStateManager.getStatesFor`: for each listed avatar in order,
   * skip it if it is not ready, else ask it for `e`'s state; an exception
   * stops the loop and escapes.
   */
  function StatesFor(w: World, ids: seq<Cards.AvatarId>, e: Entity): (r: (World, Result<seq<AvatarState>>))
    requires IdsIn(ids, |w.avatars|) && WorldOk(w)
    ensures Grows(w.avatars, r.0.avatars) && r.0.decks == w.decks
    ensures r.1.Ok? ==> WorldOk(r.0)
    ensures r.1.Ok? ==> HasStates(r.0.avatars, ids, e) && r.1.value == Collect(r.0.avatars, ids, e)
    decreases |ids|, 1
  {
    if ids == [] then (w, Ok([]))
    else if !w.avatars[ids[0]].ready then StatesFor(w, ids[1..], e)
    else AskFirst(w, ids, e)
  }

  /** The first listed avatar is ready: ask it, then carry on with the rest unless it threw. */
  function AskFirst(w: World, ids: seq<Cards.AvatarId>, e: Entity): (r: (World, Result<seq<AvatarState>>))
    requires IdsIn(ids, |w.avatars|) && WorldOk(w) && ids != [] && w.avatars[ids[0]].ready
    ensures Grows(w.avatars, r.0.avatars) && r.0.decks == w.decks
    ensures r.1.Ok? ==> WorldOk(r.0)
    ensures r.1.Ok? ==> HasStates(r.0.avatars, ids, e) && r.1.value == Collect(r.0.avatars, ids, e)
    decreases |ids|, 0
  {
    var (w1, got) := Ask(w, ids[0], e);
    if got.Err? then (w1, Err(got.error))
    else
      var rest := StatesFor(w1, ids[1..], e);
      GrowsTrans(w.avatars, w1.avatars, rest.0.avatars);
      if rest.1.Err? then rest
      else
        CollectGrows(w1.avatars, rest.0.avatars, [ids[0]], e);
        (rest.0, Ok([got.value] + rest.1.value))
  }

  /** Ask avatar `i` for `e`'s state, under the world's build state. */
  function Ask(w: World, i: Cards.AvatarId, e: Entity): (r: (World, Result<AvatarState>))
    requires i < |w.avatars| && WorldOk(w)
    ensures Grows(w.avatars, r.0.avatars) && r.0.decks == w.decks
    ensures e in w.avatars[i].states ==> r == (w, Ok(w.avatars[i].states[e]))
    ensures r.1.Ok? ==> WorldOk(r.0) && e in r.0.avatars[i].states && r.0.avatars[i].states[e] == r.1.value
  {
    var a := w.avatars[i];
    var g := GetStateFor(a, e, w.builder);
    StateForKeepsOthers(a, e, w.builder);
    var w1 := w.(avatars := w.avatars[i := g.avatar], builder := g.builder);
    assert e in a.states ==> w1 == w;
    (w1, g.state)
  }

  /** When every ready listed avatar already has a state for `e`, the loop only reads them, in order. */
  lemma {:induction false} StatesForKnown(w: World, ids: seq<Cards.AvatarId>, e: Entity)
    requires IdsIn(ids, |w.avatars|) && WorldOk(w) && HasStates(w.avatars, ids, e)
    ensures StatesFor(w, ids, e) == (w, Ok(Collect(w.avatars, ids, e)))
    decreases |ids|
  {
    if ids != [] {
      StatesForKnown(w, ids[1..], e);
    }
  }

  lemma GrowsTrans(a: seq<Avatar>, b: seq<Avatar>, c: seq<Avatar>)
    requires Grows(a, b) && Grows(b, c)
    ensures Grows(a, c)
  {
  }

  /** `AvatarStateManager.addDeckTo`: give `e` the deck `deck`. */
  function AddDeckTo(m: Manager, e: Entity, deck: DeckId): (r: Manager)
    ensures r.cache == m.cache
    ensures e in r.decks && r.decks[e] == deck
    ensures forall x :: x != e ==> (x in r.decks <==> x in m.decks) && (x in m.decks ==> r.decks[x] == m.decks[x])
  {
    m.(decks := m.decks[e := deck])
  }

  /**
   * `AvatarStateManager.getStatesFor(Entity)`: a remembered answer if there is
   * one; the empty list, remembered, for an entity without a deck;
   * otherwise the states of the deck's ready avatars, remembered only when
   * none was skipped.
   */
  function GetStatesFor(m: Manager, w: World, e: Entity): (r: (Manager, World, Result<seq<AvatarState>>))
    requires WorldOk(w) && ManagerOk(m, w)
    ensures r.0.decks == m.decks && Grows(w.avatars, r.1.avatars)
    ensures forall x :: x != e ==> (x in r.0.cache <==> x in m.cache) && (x in m.cache ==> r.0.cache[x] == m.cache[x])
    ensures e in m.cache ==> r == (m, w, Ok(m.cache[e]))
    ensures e !in m.cache && e !in m.decks ==> r == (m.(cache := m.cache[e := []]), w, Ok([]))
    ensures r.2.Ok? ==> WorldOk(r.1) && ManagerOk(r.0, r.1)
    ensures r.2.Ok? ==> forall k :: 0 <= k < |r.2.value| ==> r.2.value[k].owner == e
    ensures e !in m.cache && e in m.decks ==>
      var ids := Cards.Tops(w.decks[m.decks[e]], Cards.COLS);
      IdsIn(ids, |w.avatars|)
      && (r.2.Ok? ==> HasStates(r.1.avatars, ids, e) && r.2.value == Collect(r.1.avatars, ids, e)
                      && (e in r.0.cache <==> AllReady(w.avatars, ids))
                      && (e in r.0.cache ==> r.0.cache[e] == r.2.value))
      && (r.2.Err? ==> e !in r.0.cache)
  {
    if e in m.cache then (m, w, Ok(m.cache[e]))
    else if e !in m.decks then (m.(cache := m.cache[e := []]), w, Ok([]))
    else
      var id := m.decks[e];
      var (deck, ids) := Cards.Lookup(w.decks[id]);
      Cards.LookupIn(w.decks[id], |w.avatars|);
      var w1 := w.(decks := w.decks[id := deck]);
      assert WorldOk(w1);
      var (w2, res) := StatesFor(w1, ids, e);
      if res.Ok? then CollectOwned(w2.avatars, ids, e); Decide(m, w, e, ids, w2, res)
      else (m, w2, res)
  }

  /** The end of `getStatesFor`: remember the answer only when every avatar was ready. */
  function Decide(m: Manager, w: World, e: Entity, ids: seq<Cards.AvatarId>, w2: World, res: Result<seq<AvatarState>>)
    : (r: (Manager, World, Result<seq<AvatarState>>))
    requires IdsIn(ids, |w.avatars|)
    ensures r.1 == w2 && r.2 == res && r.0.decks == m.decks
    ensures res.Ok? && AllReady(w.avatars, ids) ==> r.0.cache == m.cache[e := res.value]
    ensures res.Err? || !AllReady(w.avatars, ids) ==> r.0 == m
  {
    if res.Ok? && AllReady(w.avatars, ids) then (m.(cache := m.cache[e := res.value]), w2, res) else (m, w2, res)
  }

  /** `AvatarStateManager.getStatesFor(PlayerEntity)`: a player is asked about as an entity. */
  function GetStatesForPlayer(m: Manager, w: World, player: Entity): (r: (Manager, World, Result<seq<AvatarState>>))
    requires WorldOk(w) && ManagerOk(m, w)
    ensures r == GetStatesFor(m, w, player)
    ensures player in m.cache ==> r.2 == Ok(m.cache[player])
  {
    GetStatesFor(m, w, player)
  }

  /** A remembered answer survives giving the entity another deck. */
  lemma CachedSurvivesNewDeck(m: Manager, w: World, e: Entity, deck: DeckId)
    requires WorldOk(w) && ManagerOk(m, w) && deck < |w.decks| && e in m.cache
    ensures ManagerOk(AddDeckTo(m, e, deck), w)
    ensures GetStatesFor(AddDeckTo(m, e, deck), w, e).2 == Ok(m.cache[e])
  {
  }

  /** An entity without a deck gets the empty list, and the next call answers it from memory. */
  lemma NoDeckRemembered(m: Manager, w: World, e: Entity)
    requires WorldOk(w) && ManagerOk(m, w) && e !in m.cache && e !in m.decks
    ensures var r := GetStatesFor(m, w, e);
      r.2 == Ok([]) && GetStatesFor(r.0, r.1, e) == (r.0, r.1, Ok([]))
  {
  }

  /**
   * Asking twice gives the same list. When an avatar was skipped the second
   * call recomputes (nothing was remembered) and finds the states the first
   * one recorded; otherwise it answers from memory.
   */
  lemma RepeatAgrees(m: Manager, w: World, e: Entity)
    requires WorldOk(w) && ManagerOk(m, w)
    requires GetStatesFor(m, w, e).2.Ok?
    ensures var r := GetStatesFor(m, w, e);
      var r2 := GetStatesFor(r.0, r.1, e);
      r2.2 == r.2 && r2.1 == r.1
  {
    var r := GetStatesFor(m, w, e);
    if e !in m.cache && e in m.decks && e !in r.0.cache {
      var id := m.decks[e];
      var ids := Cards.Tops(w.decks[id], Cards.COLS);
      var (deck, ids') := Cards.Lookup(w.decks[id]);
      assert ids' == ids;
      var (deck2, ids2) := Cards.Lookup(r.1.decks[id]);
      assert ids2 == ids;
      StatesForKnown(r.1.(decks := r.1.decks[id := deck2]), ids, e);
    }
  }
}
