/**
 * The card side of avatar management: a deck of avatar cards laid out in
 * rows and columns, from which the topmost card of each column supplies an
 * avatar, and the metadata a card is drawn with. A card is identified here
 * by the avatar it holds, an index into the world's avatars.
 */
module Cards {
  import opened Wrappers

  /** An avatar, as an index into the world's avatars. */
  type AvatarId = nat

  /** `CardDeck.ROWS` and `CardDeck.COLS`. */
  const ROWS := 3
  const COLS := 4

  /** Empty slots are `None`; `cache` is the remembered answer of `getAvatars`. */
  datatype Deck = Deck(cards: seq<seq<Option<AvatarId>>>, cache: Option<seq<AvatarId>>)

  /** The slot grid is `ROWS` by `COLS`. */
  predicate Shaped(d: Deck) {
    |d.cards| == ROWS && forall y :: 0 <= y < ROWS ==> |d.cards[y]| == COLS
  }

  /** The `CardDeck` constructor: one card, in the first row and the first column. */
  function NewDeck(card: AvatarId): (d: Deck)
    ensures Shaped(d) && d.cache.None?
    ensures d.cards[0][0] == Some(card)
    ensures forall y, x :: 0 <= y < ROWS && 0 <= x < COLS && (y, x) != (0, 0) ==> d.cards[y][x].None?
  {
    var empty: seq<Option<AvatarId>> := [None, None, None, None];
    Deck([[Some(card), None, None, None], empty, empty], None)
  }

  /** Column `x`, top row first. */
  function Column(d: Deck, x: nat): (col: seq<Option<AvatarId>>)
    requires Shaped(d) && x < COLS
    ensures |col| == ROWS && forall y :: 0 <= y < ROWS ==> col[y] == d.cards[y][x]
  {
    seq(ROWS, y requires 0 <= y < ROWS => d.cards[y][x])
  }

  /** The first present entry of a column. */
  function FirstSome(col: seq<Option<AvatarId>>): Option<AvatarId> {
    if col == [] then None else if col[0].Some? then col[0] else FirstSome(col[1..])
  }

  /** The first present entry is the one with nothing above it. */
  lemma {:induction false} FirstSomeIsTopmost(col: seq<Option<AvatarId>>, a: AvatarId)
    ensures FirstSome(col) == Some(a) <==>
      exists y :: 0 <= y < |col| && col[y] == Some(a) && forall z :: 0 <= z < y ==> col[z].None?
  {
    if col != [] && col[0].None? {
      FirstSomeIsTopmost(col[1..], a);
      if exists y :: 0 <= y < |col| && col[y] == Some(a) && forall z :: 0 <= z < y ==> col[z].None? {
        var y :| 0 <= y < |col| && col[y] == Some(a) && forall z :: 0 <= z < y ==> col[z].None?;
        assert col[1..][y - 1] == Some(a) && forall z :: 0 <= z < y - 1 ==> col[1..][z].None?;
      }
      if FirstSome(col[1..]) == Some(a) {
        var y :| 0 <= y < |col[1..]| && col[1..][y] == Some(a) && forall z :: 0 <= z < y ==> col[1..][z].None?;
        assert col[y + 1] == Some(a);
        assert forall z :: 0 <= z < y + 1 ==> col[z].None? by {
          forall z | 0 <= z < y + 1
            ensures col[z].None?
          {
            if z > 0 {
              assert col[z] == col[1..][z - 1];
            }
          }
        }
      }
    } else if col != [] {
      if exists y :: 0 <= y < |col| && col[y] == Some(a) && forall z :: 0 <= z < y ==> col[z].None? {
        var y :| 0 <= y < |col| && col[y] == Some(a) && forall z :: 0 <= z < y ==> col[z].None?;
        assert y == 0;
      }
    }
  }

  /** A scan that stopped at `y` with nothing above: it found the first present entry, or none at the bottom. */
  lemma {:induction false} FirstSomeAt(col: seq<Option<AvatarId>>, y: nat)
    requires y <= |col| && forall z :: 0 <= z < y ==> col[z].None?
    requires y < |col| ==> col[y].Some?
    ensures FirstSome(col) == if y < |col| then col[y] else None
  {
    if y > 0 {
      assert col[0].None?;
      FirstSomeAt(col[1..], y - 1);
    }
  }

  /** The reference answer: the topmost avatar of each of the first `n` columns that has one, in column order. */
  function Tops(d: Deck, n: nat): (r: seq<AvatarId>)
    requires Shaped(d) && n <= COLS
    ensures |r| <= n
  {
    if n == 0 then []
    else
      match FirstSome(Column(d, n - 1))
      case Some(a) => Tops(d, n - 1) + [a]
      case None => Tops(d, n - 1)
  }

  /** A remembered list is the one the deck's cards give. */
  ghost predicate Consistent(d: Deck)
    requires Shaped(d)
  {
    d.cache.Some? ==> d.cache.value == Tops(d, COLS)
  }

  /** Every card names one of `n` avatars. */
  ghost predicate CardsIn(d: Deck, n: nat)
    requires Shaped(d)
  {
    forall y, x :: 0 <= y < ROWS && 0 <= x < COLS && d.cards[y][x].Some? ==> d.cards[y][x].value < n
  }

  /** What `getAvatars` answers and the deck it leaves, as a function. */
  function Lookup(d: Deck): (r: (Deck, seq<AvatarId>))
    requires Shaped(d)
    ensures Shaped(r.0) && r.0.cards == d.cards && r.0.cache == Some(r.1)
    ensures Consistent(d) ==> r.1 == Tops(d, COLS) && Consistent(r.0)
  {
    var d' := d.(cache := Some(Tops(d, COLS)));
    SameCards(d, d', COLS);
    if d.cache.Some? then (d, d.cache.value) else (d', Tops(d, COLS))
  }

  /** The answer depends on the cards only. */
  lemma SameCards(d: Deck, d': Deck, n: nat)
    requires Shaped(d) && d'.cards == d.cards && n <= COLS
    ensures Tops(d', n) == Tops(d, n)
  {
    if n > 0 {
      SameCards(d, d', n - 1);
      assert Column(d', n - 1) == Column(d, n - 1);
    }
  }

  /** The avatars a consistent deck answers are among its cards. */
  lemma LookupIn(d: Deck, n: nat)
    requires Shaped(d) && Consistent(d) && CardsIn(d, n)
    ensures forall i :: 0 <= i < |Lookup(d).1| ==> Lookup(d).1[i] < n
  {
    forall i | 0 <= i < |Lookup(d).1|
      ensures Lookup(d).1[i] < n
    {
      TopsAreTopmost(d, COLS, i);
      var x :| 0 <= x < COLS && FirstSome(Column(d, x)) == Some(Tops(d, COLS)[i]);
      FirstSomeIsTopmost(Column(d, x), Tops(d, COLS)[i]);
    }
  }

  /**
   * `CardDeck.getAvatars`: the remembered list if there is one;
   * otherwise scan each column top down, take the first card's avatar, and
   * remember the list.
   */
  method GetAvatars(d: Deck) returns (d': Deck, avatars: seq<AvatarId>)
    requires Shaped(d)
    ensures d.cache.Some? ==> d' == d && avatars == d.cache.value
    ensures d.cache.None? ==> avatars == Tops(d, COLS) && d' == d.(cache := Some(avatars))
    ensures (d', avatars) == Lookup(d)
    ensures |avatars| <= COLS || d.cache.Some?
  {
    if d.cache.Some? {
      return d, d.cache.value;
    }
    avatars := [];
    var x := 0;
    while x < COLS
      invariant 0 <= x <= COLS
      invariant avatars == Tops(d, x)
    {
      var y := 0;
      while y < ROWS && d.cards[y][x].None?
        invariant 0 <= y <= ROWS
        invariant forall z :: 0 <= z < y ==> d.cards[z][x].None?
      {
        y := y + 1;
      }
      FirstSomeAt(Column(d, x), y);
      if y != ROWS {
        avatars := avatars + [d.cards[y][x].value];
      }
      x := x + 1;
    }
    d' := d.(cache := Some(avatars));
  }

  /** Each avatar returned is the topmost card of a distinct column, and at most one per column. */
  lemma {:induction false} TopsAreTopmost(d: Deck, n: nat, i: nat)
    requires Shaped(d) && n <= COLS && i < |Tops(d, n)|
    ensures exists x :: 0 <= x < n && FirstSome(Column(d, x)) == Some(Tops(d, n)[i])
  {
    var prev := Tops(d, n - 1);
    if i < |prev| {
      TopsAreTopmost(d, n - 1, i);
      var x :| 0 <= x < n - 1 && FirstSome(Column(d, x)) == Some(prev[i]);
      assert Tops(d, n)[i] == prev[i];
    } else {
      assert FirstSome(Column(d, n - 1)) == Some(Tops(d, n)[i]);
    }
  }

  /** A column with a card contributes exactly its topmost card's avatar. */
  lemma {:induction false} TopsCount(d: Deck, n: nat)
    requires Shaped(d) && n <= COLS
    ensures |Tops(d, n)| == |Filled(d, n)|
  {
    if n == 0 {
      assert Filled(d, n) == {};
    } else {
      TopsCount(d, n - 1);
      if FirstSome(Column(d, n - 1)).Some? {
        assert Filled(d, n) == Filled(d, n - 1) + {n - 1};
      } else {
        assert Filled(d, n) == Filled(d, n - 1);
      }
    }
  }

  /** The columns among the first `n` that hold a card. */
  function Filled(d: Deck, n: nat): set<nat>
    requires Shaped(d) && n <= COLS
  {
    set x: nat | x < n && FirstSome(Column(d, x)).Some?
  }

  /** A deck made from one card yields exactly that card's avatar. */
  lemma SingleCardDeck(card: AvatarId)
    ensures Tops(NewDeck(card), COLS) == [card]
  {
    var d := NewDeck(card);
    assert FirstSome(Column(d, 0)) == Some(card);
    FirstSomeAt(Column(d, 1), ROWS);
    FirstSomeAt(Column(d, 2), ROWS);
    FirstSomeAt(Column(d, 3), ROWS);
    assert Tops(d, 1) == [card];
    assert Tops(d, 2) == [card];
    assert Tops(d, 3) == [card];
  }

  // ---------------------------------------------------------------------
  // Card metadata

  /** `CardMetadata.CardBack` and `CardMetadata.CardBackground`: each enum has the single constant `TEST`. */
  datatype CardBack = TestBack
  datatype CardBackground = TestBackground

  /** What a card is drawn with; `None` is a null field. */
  datatype Metadata = Metadata(back: Option<CardBack>, background: Option<CardBackground>,
                               lua: Option<string>, ready: bool)

  /** A new card's metadata: nothing stored, not ready. */
  const NEW_METADATA := Metadata(None, None, None, false)

  /** `CardMetadata.complete`. */
  function Complete(m: Metadata): (r: Metadata)
    ensures r.ready && r.back == m.back && r.background == m.background && r.lua == m.lua
  {
    m.(ready := true)
  }

  /** `CardMetadata.fill(CardBack, CardBackground, String)`: the three fields are stored; readiness is left alone. */
  function Fill(m: Metadata, back: Option<CardBack>, background: Option<CardBackground>, lua: Option<string>)
    : (r: Metadata)
    ensures r.ready == m.ready
    ensures r.back == back && r.background == background && r.lua == lua
  {
    m.(back := back, background := background, lua := lua)
  }

  /** `CardMetadata.fill(CardBack, CardBackground)`: no script. */
  function FillNoScript(m: Metadata, back: Option<CardBack>, background: Option<CardBackground>): (r: Metadata)
    ensures r == Fill(m, back, background, None)
  {
    Fill(m, back, background, None)
  }

  /** The message prefixes of `Enum.valueOf`, which name the enum by its canonical class name. */
  const NO_BACK := "No enum constant net.fabricmc.example.management.cards.CardMetadata.CardBack."
  const NO_BACKGROUND := "No enum constant net.fabricmc.example.management.cards.CardMetadata.CardBackground."

  /** `Enum.valueOf`: the constant of that name, a null name, or no such constant. */
  function BackNamed(name: Option<string>): (r: Result<CardBack>)
    ensures r.Ok? <==> name == Some("TEST")
    ensures name.None? ==> r == Err(NullPointer)
    ensures name.Some? && name.value != "TEST" ==> r == Err(IllegalArgument(NO_BACK + name.value))
  {
    if name.None? then Err(NullPointer)
    else if name.value == "TEST" then Ok(TestBack)
    else Err(IllegalArgument(NO_BACK + name.value))
  }

  function BackgroundNamed(name: Option<string>): (r: Result<CardBackground>)
    ensures r.Ok? <==> name == Some("TEST")
    ensures name.None? ==> r == Err(NullPointer)
    ensures name.Some? && name.value != "TEST" ==> r == Err(IllegalArgument(NO_BACKGROUND + name.value))
  {
    if name.None? then Err(NullPointer)
    else if name.value == "TEST" then Ok(TestBackground)
    else Err(IllegalArgument(NO_BACKGROUND + name.value))
  }

  /** `CardMetadata.fill` by names: both names looked up, back first, then filled. */
  function FillNamed(m: Metadata, back: Option<string>, background: Option<string>, lua: Option<string>)
    : (r: Result<Metadata>)
    ensures r.Ok? <==> back == Some("TEST") && background == Some("TEST")
    ensures back != Some("TEST") ==> r == Err(BackNamed(back).error)
    ensures r.Ok? ==> r.value == Fill(m, Some(TestBack), Some(TestBackground), lua)
  {
    match BackNamed(back)
    case Err(e) => Err(e)
    case Ok(b) =>
      match BackgroundNamed(background)
      case Err(e) => Err(e)
      case Ok(g) => Ok(Fill(m, Some(b), Some(g), lua))
  }

  /** `CardMetadata.getCardBack` and `getCardBackground`: `TEST` until ready, then whatever was stored. */
  function GetCardBack(m: Metadata): (r: Option<CardBack>)
    ensures !m.ready ==> r == Some(TestBack)
    ensures m.ready ==> r == m.back
  {
    if !m.ready then Some(TestBack) else m.back
  }

  function GetCardBackground(m: Metadata): (r: Option<CardBackground>)
    ensures !m.ready ==> r == Some(TestBackground)
    ensures m.ready ==> r == m.background
  {
    if !m.ready then Some(TestBackground) else m.background
  }

  /** One call `fill(back, background, lua)`. */
  datatype FillCall = FillCall(back: Option<CardBack>, background: Option<CardBackground>, lua: Option<string>)

  function FillAll(m: Metadata, calls: seq<FillCall>): (r: Metadata)
    ensures r.ready == m.ready
    ensures calls == [] ==> r == m
    ensures calls != [] ==> r.back == calls[|calls| - 1].back && r.background == calls[|calls| - 1].background
  {
    if calls == [] then m
    else
      var c := calls[|calls| - 1];
      Fill(FillAll(m, calls[..|calls| - 1]), c.back, c.background, c.lua)
  }

  /**
   * Whatever is filled, the getters answer `TEST` until `complete`; after
   * it they answer the last fill, and no fill changes readiness.
   */
  lemma GettersGatedByReadiness(calls: seq<FillCall>, later: seq<FillCall>)
    requires calls != []
    ensures var m := FillAll(NEW_METADATA, calls);
      !m.ready && GetCardBack(m) == Some(TestBack) && GetCardBackground(m) == Some(TestBackground)
    ensures var done := Complete(FillAll(NEW_METADATA, calls));
      GetCardBack(done) == calls[|calls| - 1].back && GetCardBackground(done) == calls[|calls| - 1].background
    ensures var m := FillAll(Complete(FillAll(NEW_METADATA, calls)), later);
      m.ready && (later != [] ==> GetCardBack(m) == later[|later| - 1].back)
  {
  }

  /** A completed card filled with a null back answers null, not `TEST`. */
  lemma NullAfterComplete()
    ensures GetCardBack(Complete(FillNoScript(NEW_METADATA, None, None))).None?
    ensures FillNoScript(NEW_METADATA, Some(TestBack), None).lua.None?
  {
  }
}
