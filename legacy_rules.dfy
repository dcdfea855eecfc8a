/** The rules of the older revision's `Solitare` class stated on values: the
    board is the `Rules.Board` of the current revision, but foundations are
    chosen by a fixed suit-to-slot table, an empty foundation has the divider
    -1, Python's negative indices are taken as Python takes them, and an index
    outside a pile raises `IndexError`. Solitare/solitare.py turns the source
    pile up after a move (`reflip`), Solitare/Solitare.py does not. */
module LegacyRules {
  import opened Wrappers
  import opened Cards
  import opened CardPiles
  import opened Rules
  import opened LegacyPile
  import LegacyDeck

  /** What `movepile` or `movehome` reports and the board it leaves. */
  datatype Outcome = Outcome(moved: bool, board: Board)

  /** The result a move hands back to its caller: the report, or the error. */
  function Verdict(r: Result<Outcome, LegacyDeck.IndexError>): Result<bool, LegacyDeck.IndexError>
  {
    match r
    case Ok(o) => Ok(o.moved)
    case Err(e) => Err(e)
  }

  /** The board after a move: the new one, or `b` when the move raised before
      changing anything. */
  function After(b: Board, r: Result<Outcome, LegacyDeck.IndexError>): Board
  {
    match r
    case Ok(o) => o.board
    case Err(_) => b
  }

  /** The board of the older revision keeps the draw pile and every tableau
      pile divided, and every foundation at the divider -1 it was made with. */
  predicate LegacyValid(b: Board)
  {
    && b.Shaped()
    && b.deck.Divided()
    && (forall i :: 0 <= i < 7 ==> b.piles[i].Divided())
    && (forall j :: 0 <= j < 4 ==> b.homes[j].flip == -1)
  }

  /** The same, pile by pile. */
  predicate LegacyDivided(id: PileId, p: Pile)
  {
    if id.Home? then p.flip == -1 else p.Divided()
  }

  lemma LegacyValidByPiles(b: Board)
    requires b.Shaped()
    ensures LegacyValid(b) <==> forall id: PileId :: id.Valid() ==> LegacyDivided(id, b.Get(id))
  {
    if forall id: PileId :: id.Valid() ==> LegacyDivided(id, b.Get(id)) {
      assert LegacyDivided(Deck, b.Get(Deck));
      forall i | 0 <= i < 7 ensures b.piles[i].Divided() {
        assert LegacyDivided(Tableau(i), b.Get(Tableau(i)));
      }
      forall j | 0 <= j < 4 ensures b.homes[j].flip == -1 {
        assert LegacyDivided(Home(j), b.Get(Home(j)));
      }
    }
  }

  /** The `update` of the source that Solitare/solitare.py makes after some
      moves; with `reflip` off (Solitare/Solitare.py) the board stays. */
  function Reflip(b: Board, s: PileId, reflip: bool): (r: Board)
    requires b.Shaped() && s.Valid()
    ensures r.Shaped()
    ensures forall id: PileId :: id.Valid() ==> r.Get(id).cards == b.Get(id).cards
    ensures forall id: PileId :: id.Valid() && (id != s || !reflip) ==> r.Get(id) == b.Get(id)
  {
    if reflip then b.Set(s, Updated(b.Get(s))) else b
  }

  // ---------------------------------------------------------------------
  // movepile

  /** `movepile(source, dest)`. With no face-up card the source moves
      nothing. Onto a non-empty pile, the waste card `source[flip]` moves
      when it stacks on the top card; from any other pile the run from the
      first face-up card that stacks moves, and the source is turned up when
      `reflip`. Onto an empty pile only a King at `source[flip]` moves: the
      waste card alone, or the run from `flip`. Reading `source[flip]` of
      a pile too short for it raises. */
  function LegacyMovePile(b: Board, s: PileId, d: PileId, reflip: bool): (r: Result<Outcome, LegacyDeck.IndexError>)
    requires b.Shaped() && s.Valid() && d.Valid()
    ensures r.Ok? && !r.value.moved ==> r.value.board == b
    ensures r.Err? ==> b.Get(s).flip != |b.Get(s).cards| && !InRange(|b.Get(s).cards|, b.Get(s).flip)
  {
    var src := b.Get(s);
    var dst := b.Get(d);
    var n := |src.cards|;
    if src.flip == n then Ok(Outcome(false, b))
    else if |dst.cards| > 0 then
      var top := Top(dst);
      if s == Deck then
        if !InRange(n, src.flip) then Err(LegacyDeck.IndexError)
        else
          var i := PyIndex(n, src.flip);
          if Stacks(src.cards[i], top) then Ok(Outcome(true, MoveCardOn(b, s, d, i)))
          else Ok(Outcome(false, b))
      else
        match FirstStacking(src.cards, SliceStart(n, src.flip), top)
        case Some(i) => Ok(Outcome(true, Reflip(MoveCardsOn(b, s, d, i), s, reflip)))
        case None => Ok(Outcome(false, b))
    else if !InRange(n, src.flip) then Err(LegacyDeck.IndexError)
    else
      var i := PyIndex(n, src.flip);
      if src.cards[i].value != 13 then Ok(Outcome(false, b))
      else if s == Deck then Ok(Outcome(true, MoveCardOn(b, s, d, i)))
      else Ok(Outcome(true, Reflip(MoveCardsOn(b, s, d, i), s, reflip)))
  }

  /** A source without a face-up card moves nothing. */
  lemma LegacyMovePileNeedsFaceUp(b: Board, s: PileId, d: PileId, reflip: bool)
    requires b.Shaped() && s.Valid() && d.Valid()
    requires b.Get(s).flip == |b.Get(s).cards|
    ensures LegacyMovePile(b, s, d, reflip) == Ok(Outcome(false, b))
  {}

  /** An empty foundation, whose divider is -1, cannot be the source of a
      move onto an empty pile: `source[-1]` of no cards raises. */
  lemma LegacyMovePileFromEmptyFoundation(b: Board, j: nat, d: PileId, reflip: bool)
    requires LegacyValid(b) && j < 4 && d.Valid()
    requires b.homes[j].cards == [] && b.Get(d).cards == []
    ensures LegacyMovePile(b, Home(j), d, reflip) == Err(LegacyDeck.IndexError)
  {
    assert b.Get(Home(j)) == b.homes[j];
  }

  /** The two revisions of the older class differ only in the `update` of a
      tableau or foundation source after a move: they report alike, and
      when the move is made, Solitare/solitare.py's board is
      Solitare/Solitare.py's with the source turned up. */
  lemma LegacyMovePileReflip(b: Board, s: PileId, d: PileId)
    requires b.Shaped() && s.Valid() && d.Valid()
    ensures Verdict(LegacyMovePile(b, s, d, true)) == Verdict(LegacyMovePile(b, s, d, false))
    ensures var t, f := LegacyMovePile(b, s, d, true), LegacyMovePile(b, s, d, false);
      t.Ok? && t.value.moved ==>
        t.value.board == if s == Deck then f.value.board else Reflip(f.value.board, s, true)
  {}

  /** Every move of one card keeps every card on the board, and so does
      every move of a run onto another pile. */
  lemma LegacyMovePileConserves(b: Board, s: PileId, d: PileId, reflip: bool)
    requires b.Shaped() && s.Valid() && d.Valid() && (s != d || s == Deck)
    ensures CardsOf(After(b, LegacyMovePile(b, s, d, reflip))) == CardsOf(b)
  {
    var src, dst := b.Get(s), b.Get(d);
    var n := |src.cards|;
    var r := LegacyMovePile(b, s, d, reflip);
    if r.Ok? && r.value.moved {
      if s == Deck {
        var i := PyIndex(n, src.flip);
        assert r.value.board == MoveCardOn(b, s, d, i);
        MoveCardOnConserves(b, s, d, i);
      } else {
        var i := if |dst.cards| > 0 then FirstStacking(src.cards, SliceStart(n, src.flip), Top(dst)).value
                 else PyIndex(n, src.flip);
        var m := MoveCardsOn(b, s, d, i);
        assert r.value.board == Reflip(m, s, reflip);
        MoveCardsOnConserves(b, s, d, i);
        ReflipConserves(m, s, reflip);
      }
    }
  }

  /** Two boards whose piles hold the same cards, pile by pile, hold the
      same cards. */
  lemma SameCardsByPiles(a: Board, b: Board)
    requires a.Shaped() && b.Shaped()
    requires forall id: PileId :: id.Valid() ==> a.Get(id).cards == b.Get(id).cards
    ensures CardsOf(a) == CardsOf(b)
  {
    assert a.Get(Deck).cards == b.Get(Deck).cards;
    forall i | 0 <= i < 7 ensures a.piles[i].cards == b.piles[i].cards {
      assert a.Get(Tableau(i)).cards == b.Get(Tableau(i)).cards;
    }
    forall j | 0 <= j < 4 ensures a.homes[j].cards == b.homes[j].cards {
      assert a.Get(Home(j)).cards == b.Get(Home(j)).cards;
    }
    SumCardsSameCards(a.piles, b.piles);
    SumCardsSameCards(a.homes, b.homes);
  }

  /** Turning up a pile moves no card. */
  lemma ReflipConserves(b: Board, s: PileId, reflip: bool)
    requires b.Shaped() && s.Valid()
    ensures CardsOf(Reflip(b, s, reflip)) == CardsOf(b)
  {
    var r := Reflip(b, s, reflip);
    UpdatedFlipsOnlyTheTop(b.Get(s));
    assert r.Get(s).cards == b.Get(s).cards;
    SameCardsByPiles(r, b);
  }

  /** Turning up a pile keeps the older board's invariant. */
  lemma ReflipValid(b: Board, s: PileId, reflip: bool)
    requires LegacyValid(b) && s.Valid()
    ensures LegacyValid(Reflip(b, s, reflip))
  {
    if reflip {
      var r := Reflip(b, s, reflip);
      LegacyValidByPiles(b);
      UpdatedFlipsOnlyTheTop(b.Get(s));
      forall id: PileId | id.Valid() ensures LegacyDivided(id, r.Get(id)) {
        if id == s {
          assert LegacyDivided(id, b.Get(id));
        }
      }
      LegacyValidByPiles(r);
    }
  }

  /** Popping the card at `k` keeps the older board's invariant when the card
      lies at or above the source's divider. */
  lemma MoveCardOnLegacyValid(b: Board, s: PileId, d: PileId, k: nat)
    requires LegacyValid(b) && s.Valid() && d.Valid() && k < |b.Get(s).cards|
    requires b.Get(s).flip < |b.Get(s).cards|
    ensures LegacyValid(MoveCardOn(b, s, d, k))
  {
    var m := MoveCardOn(b, s, d, k);
    LegacyValidByPiles(b);
    forall id: PileId | id.Valid() ensures LegacyDivided(id, m.Get(id)) {
      assert LegacyDivided(id, b.Get(id));
    }
    LegacyValidByPiles(m);
  }

  /** Moving the run from `k` keeps the older board's invariant when `k` is
      at or above the source's divider. */
  lemma MoveCardsOnLegacyValid(b: Board, s: PileId, d: PileId, k: nat)
    requires LegacyValid(b) && s.Valid() && d.Valid() && b.Get(s).flip <= k <= |b.Get(s).cards|
    ensures LegacyValid(MoveCardsOn(b, s, d, k))
  {
    var m := MoveCardsOn(b, s, d, k);
    LegacyValidByPiles(b);
    forall id: PileId | id.Valid() ensures LegacyDivided(id, m.Get(id)) {
      assert LegacyDivided(id, b.Get(id));
    }
    LegacyValidByPiles(m);
  }

  /** `movepile` keeps the older board's invariant, moved or not. */
  lemma LegacyMovePileKeepsValid(b: Board, s: PileId, d: PileId, reflip: bool)
    requires LegacyValid(b) && s.Valid() && d.Valid()
    ensures LegacyValid(After(b, LegacyMovePile(b, s, d, reflip)))
  {
    var src, dst := b.Get(s), b.Get(d);
    var n := |src.cards|;
    var r := LegacyMovePile(b, s, d, reflip);
    LegacyValidByPiles(b);
    assert LegacyDivided(s, src);
    if r.Ok? && r.value.moved {
      if s == Deck {
        var i := PyIndex(n, src.flip);
        assert r.value.board == MoveCardOn(b, s, d, i);
        MoveCardOnLegacyValid(b, s, d, i);
      } else {
        var i := if |dst.cards| > 0 then FirstStacking(src.cards, SliceStart(n, src.flip), Top(dst)).value
                 else PyIndex(n, src.flip);
        var m := MoveCardsOn(b, s, d, i);
        assert r.value.board == Reflip(m, s, reflip);
        assert s.Home? ==> src.flip == -1;
        MoveCardsOnLegacyValid(b, s, d, i);
        ReflipValid(m, s, reflip);
      }
    }
  }

  // ---------------------------------------------------------------------
  // The older rule against the current one

  /** A pile whose top card, if any, is face up: `update` leaves it. */
  predicate TopUp(p: Pile)
  {
    |p.cards| == 0 || p.flip < |p.cards|
  }

  /** Every tableau pile has its top card face up, as after every move of
      the current revision. */
  predicate Settled(b: Board)
    requires b.Shaped()
  {
    forall i :: 0 <= i < 7 ==> TopUp(b.piles[i])
  }

  /** When the tableau piles other than the source have their tops up, the
      current revision's `_update` of the whole tableau turns up the source
      alone, as Solitare/solitare.py does. */
  lemma UpdateAllOnlySource(b: Board, s: PileId)
    requires b.Shaped() && s.Valid()
    requires forall i :: 0 <= i < 7 && Tableau(i) != s ==> TopUp(b.piles[i])
    ensures UpdateAll(b) == if s.Tableau? then Reflip(b, s, true) else b
  {
    var u := UpdateAll(b);
    var r := if s.Tableau? then Reflip(b, s, true) else b;
    forall id: PileId | id.Valid() ensures u.Get(id) == r.Get(id) {
      if id.Tableau? && id != s {
        assert TopUp(b.piles[id.i]);
        UpdatedFlipsOnlyTheTop(b.Get(id));
      }
    }
    BoardExt(u, r);
  }

  /** No card appears twice in the pile. */
  predicate Distinct(cards: seq<Card>)
  {
    forall i, j :: 0 <= i < j < |cards| ==> cards[i] != cards[j]
  }

  /** On a board of the current revision whose tableau tops are up, a move
      from the draw pile or a tableau pile onto another tableau pile is the
      same under both revisions: Solitare/solitare.py reports what
      `move_pile` reports and leaves the board `move_pile` leaves. */
  lemma LegacyMovePileAsCurrent(b: Board, s: PileId, d: PileId)
    requires b.Valid() && Settled(b) && s.Valid() && d.Valid()
    requires !s.Home? && d.Tableau? && s != d && Distinct(b.Get(s).cards)
    ensures LegacyMovePile(b, s, d, true) == Ok(Outcome(CanMovePile(b, s, d), MovePileResult(b, s, d)))
  {
    var src, dst := b.Get(s), b.Get(d);
    var n := |src.cards|;
    assert src.Divided() && dst.Divided() by {
      ValidByPiles(b);
    }
    if src.flip == n {
      assert MovePilePlan(b, s, d).None?;
    } else if |dst.cards| > 0 {
      if s == Deck {
        var card := src.cards[src.flip];
        assert FirstIndex(src.cards, card) == src.flip;
        if Stacks(card, Top(dst)) {
          assert MovePilePlan(b, s, d) == Some(OneCard(src.flip));
          CardOntoSettled(b, s, d, src.flip);
        } else {
          assert MovePilePlan(b, s, d).None?;
        }
      } else {
        match FirstStacking(src.cards, src.flip, Top(dst))
        case Some(i) =>
          assert MovePilePlan(b, s, d) == Some(Run(i));
          RunOntoSettled(b, s, d, i);
        case None =>
          assert MovePilePlan(b, s, d).None?;
      }
    } else if src.cards[src.flip].value == 13 {
      if s == Deck {
        assert MovePilePlan(b, s, d) == Some(OneCard(src.flip));
        CardOntoSettled(b, s, d, src.flip);
      } else {
        assert MovePilePlan(b, s, d) == Some(Run(src.flip));
        RunOntoSettled(b, s, d, src.flip);
      }
    } else {
      assert MovePilePlan(b, s, d).None?;
    }
  }

  /** A card from the draw pile dropped onto a tableau pile leaves every
      tableau top up, so `_update` changes nothing. */
  lemma CardOntoSettled(b: Board, s: PileId, d: PileId, k: nat)
    requires b.Valid() && Settled(b) && s == Deck && d.Tableau? && d.Valid() && k < |b.Get(s).cards|
    ensures UpdateAll(MoveCardOn(b, s, d, k)) == MoveCardOn(b, s, d, k)
  {
    var m := MoveCardOn(b, s, d, k);
    forall i | 0 <= i < 7 && Tableau(i) != s ensures TopUp(m.piles[i]) {
      assert m.piles[i] == m.Get(Tableau(i)) && b.piles[i] == b.Get(Tableau(i));
      assert TopUp(b.piles[i]);
      ValidByPiles(b);
      assert b.Get(Tableau(i)).Divided();
    }
    UpdateAllOnlySource(m, s);
  }

  /** A run moved from a tableau pile onto another leaves every tableau top
      up except perhaps the source's, so `_update` turns up the source
      alone. */
  lemma RunOntoSettled(b: Board, s: PileId, d: PileId, k: nat)
    requires b.Valid() && Settled(b) && s.Tableau? && s.Valid() && d.Tableau? && d.Valid() && s != d
    requires k <= |b.Get(s).cards|
    ensures UpdateAll(MoveCardsOn(b, s, d, k)) == Reflip(MoveCardsOn(b, s, d, k), s, true)
  {
    var m := MoveCardsOn(b, s, d, k);
    forall i | 0 <= i < 7 && Tableau(i) != s ensures TopUp(m.piles[i]) {
      assert m.piles[i] == m.Get(Tableau(i)) && b.piles[i] == b.Get(Tableau(i));
      assert TopUp(b.piles[i]);
      ValidByPiles(b);
      assert b.Get(Tableau(i)).Divided();
    }
    UpdateAllOnlySource(m, s);
  }

  // ---------------------------------------------------------------------
  // movehome

  /** The fixed foundation of each suit: Spade, Heart, Club, Diamond in
      slots 0 to 3, the order `Deck()` builds the suits in. */
  function SuitSlot(suit: Suit): (j: nat)
    ensures j < 4 && SuitOrder[j] == suit
  {
    match suit
    case Spade => 0
    case Heart => 1
    case Club => 2
    case Diamond => 3
  }

  /** The index `movehome` takes its card from: the waste card `flip` of the
      draw pile, the top card (-1) of any other pile. */
  function ShownIndex(b: Board, s: PileId): (i: int)
    requires b.Shaped() && s.Valid()
    ensures s != Deck && |b.Get(s).cards| > 0 ==>
      InRange(|b.Get(s).cards|, i) && PyIndex(|b.Get(s).cards|, i) == |b.Get(s).cards| - 1
    ensures s == Deck && 0 <= b.deck.flip < |b.deck.cards| ==>
      InRange(|b.deck.cards|, i) && PyIndex(|b.deck.cards|, i) == b.deck.flip
  {
    if s == Deck then b.Get(s).flip else -1
  }

  /** `movehome(source)`. A source that is empty or has no face-up card
      moves nothing. Otherwise its card goes to the foundation of its suit
      when that is empty and the card is an Ace, or when the card is one
      higher than the foundation's top; the source is then turned up when
      `reflip`. */
  function LegacyMoveHome(b: Board, s: PileId, reflip: bool): (r: Result<Outcome, LegacyDeck.IndexError>)
    requires b.Shaped() && s.Valid()
    ensures r.Ok? && !r.value.moved ==> r.value.board == b
    ensures r.Err? ==> !InRange(|b.Get(s).cards|, ShownIndex(b, s))
  {
    var src := b.Get(s);
    var n := |src.cards|;
    if n == 0 || src.flip == n then Ok(Outcome(false, b))
    else if !InRange(n, ShownIndex(b, s)) then Err(LegacyDeck.IndexError)
    else
      var i := PyIndex(n, ShownIndex(b, s));
      var card := src.cards[i];
      var j := SuitSlot(card.suit);
      var home := b.homes[j];
      if (|home.cards| > 0 && card.value == Top(home).value + 1) || (|home.cards| == 0 && card.value == 1)
      then Ok(Outcome(true, Reflip(MoveCardOn(b, s, Home(j), i), s, reflip)))
      else Ok(Outcome(false, b))
  }

  /** A legal `movehome` takes the shown card of a source with a face-up
      card, and only then: the foundation fixed for the card's suit is
      another pile, and was empty with the card an Ace, or ended one below
      the card, whatever its suit. */
  lemma LegacyMoveHomeRule(b: Board, s: PileId, reflip: bool)
    requires LegacyValid(b) && s.Valid()
    requires LegacyMoveHome(b, s, reflip).Ok? && LegacyMoveHome(b, s, reflip).value.moved
    ensures var src := b.Get(s);
      var k := PyIndex(|src.cards|, ShownIndex(b, s));
      var c := src.cards[k];
      var j := SuitSlot(c.suit);
      && src.flip < |src.cards|
      && s != Home(j)
      && (b.homes[j].cards == [] ==> c.value == 1)
      && (b.homes[j].cards != [] ==> c.value == Top(b.homes[j]).value + 1)
      && LegacyMoveHome(b, s, reflip).value.board == Reflip(MoveCardOn(b, s, Home(j), k), s, reflip)
  {
    LegacyValidByPiles(b);
    assert LegacyDivided(s, b.Get(s));
  }

  /** A legal `movehome` puts the card on top of its suit's foundation and
      takes it out of the source; nothing else changes and no card is
      lost. */
  lemma LegacyMoveHomeEffect(b: Board, s: PileId, reflip: bool)
    requires LegacyValid(b) && s.Valid()
    requires LegacyMoveHome(b, s, reflip).Ok? && LegacyMoveHome(b, s, reflip).value.moved
    ensures var src := b.Get(s);
      var k := PyIndex(|src.cards|, ShownIndex(b, s));
      var c := src.cards[k];
      var j := SuitSlot(c.suit);
      var r := LegacyMoveHome(b, s, reflip).value.board;
      && r.homes[j].cards == b.homes[j].cards + [c]
      && r.Get(s).cards == src.cards[..k] + src.cards[k + 1..]
      && (forall id: PileId :: id.Valid() && id != s && id != Home(j) ==> r.Get(id) == b.Get(id))
      && CardsOf(r) == CardsOf(b)
  {
    LegacyMoveHomeRule(b, s, reflip);
    var src := b.Get(s);
    var k := PyIndex(|src.cards|, ShownIndex(b, s));
    var j := SuitSlot(src.cards[k].suit);
    var m := MoveCardOn(b, s, Home(j), k);
    var r := LegacyMoveHome(b, s, reflip).value.board;
    assert r == Reflip(m, s, reflip);
    UpdatedFlipsOnlyTheTop(m.Get(s));
    assert r.Get(s).cards == m.Get(s).cards;
    assert r.Get(Home(j)) == m.Get(Home(j)) == m.homes[j];
    MoveCardOnConserves(b, s, Home(j), k);
    ReflipConserves(m, s, reflip);
  }

  /** `movehome` keeps the older board's invariant, moved or not. */
  lemma LegacyMoveHomeKeepsValid(b: Board, s: PileId, reflip: bool)
    requires LegacyValid(b) && s.Valid()
    ensures LegacyValid(After(b, LegacyMoveHome(b, s, reflip)))
  {
    var r := LegacyMoveHome(b, s, reflip);
    if r.Ok? && r.value.moved {
      var src := b.Get(s);
      var k := PyIndex(|src.cards|, ShownIndex(b, s));
      var j := SuitSlot(src.cards[k].suit);
      LegacyValidByPiles(b);
      assert LegacyDivided(s, src);
      assert src.flip < |src.cards|;
      MoveCardOnLegacyValid(b, s, Home(j), k);
      ReflipValid(MoveCardOn(b, s, Home(j), k), s, reflip);
    }
  }

  /** Taking the last waste card home: Solitare/solitare.py's `update` of the
      draw pile turns up the card below it, which Solitare/Solitare.py
      leaves face down. */
  lemma LegacyMoveHomeTurnsWaste(b: Board)
    requires LegacyValid(b) && |b.deck.cards| >= 2 && b.deck.flip == |b.deck.cards| - 1
    requires LegacyMoveHome(b, Deck, true).Ok? && LegacyMoveHome(b, Deck, true).value.moved
    ensures LegacyMoveHome(b, Deck, true).value.board.deck == Pile(b.deck.cards[..|b.deck.cards| - 1], |b.deck.cards| - 2)
    ensures LegacyMoveHome(b, Deck, false).value.board.deck == Pile(b.deck.cards[..|b.deck.cards| - 1], |b.deck.cards| - 1)
  {
    var n := |b.deck.cards|;
    var j := SuitSlot(b.deck.cards[n - 1].suit);
    var m := MoveCardOn(b, Deck, Home(j), n - 1);
    assert m.Get(Deck) == Pile(b.deck.cards[..n - 1], n - 1);
  }

  // ---------------------------------------------------------------------
  // checkwin and a new game

  /** `checkwin`: `True` when all four foundations hold 13 cards, and `None`
      (nothing returned) otherwise. It never reports `False`. */
  function LegacyCheckWin(b: Board): (r: Option<bool>)
    requires b.Shaped()
    ensures r == Some(true) <==> HasWon(b)
    ensures r != Some(false)
  {
    if |b.homes[0].cards| == 13 && |b.homes[1].cards| == 13 && |b.homes[2].cards| == 13 && |b.homes[3].cards| == 13
    then Some(true) else None
  }

  /** The four foundations `Solitare()` makes: `CardPile()` four times. */
  const LegacyHomes: seq<Pile> := [LegacyEmpty, LegacyEmpty, LegacyEmpty, LegacyEmpty]

  /** `Solitare()` with the shuffled deck `order`: tableau piles of 1..7
      cards, each turned up once, four empty foundations, and the rest in the
      draw pile. */
  function LegacyInitialBoard(order: seq<Card>): (b: Board)
    ensures b.Shaped()
  {
    var deck := LegacyDealPile(TableauRest(order, 0, 7), 0).0;
    UpdateAll(Board(deck, TableauPiles(order, 0, 7), LegacyHomes))
  }

  /** A new game of the older revision is the current revision's new game
      from the same order, except that its foundations have the divider -1. */
  lemma LegacyInitialBoardIsCurrent(order: seq<Card>)
    ensures LegacyInitialBoard(order) == InitialBoard(order).(homes := LegacyHomes)
  {
    var rest := TableauRest(order, 0, 7);
    LegacyDealPileRule(rest, 0);
    var ps := TableauPiles(order, 0, 7);
    var b0 := Board(DealPile(rest, 0).0, ps, NoHomes);
    var l0 := Board(LegacyDealPile(rest, 0).0, ps, LegacyHomes);
    assert l0 == b0.(homes := LegacyHomes);
    assert UpdateAll(l0) == UpdateAll(b0).(homes := LegacyHomes);
  }

  /** A new game of the older revision keeps the older invariant and holds
      every card of the order it was dealt from. */
  lemma LegacyInitialBoardValid(order: seq<Card>)
    requires |order| == 52
    ensures LegacyValid(LegacyInitialBoard(order))
    ensures CardsOf(LegacyInitialBoard(order)) == multiset(order)
  {
    var b := InitialBoard(order);
    var l := LegacyInitialBoard(order);
    LegacyInitialBoardIsCurrent(order);
    assert l.deck == b.deck && l.piles == b.piles && l.homes == LegacyHomes;
    InitialBoardValid(order);
    assert LegacyValid(l) by {
      assert b.deck.Divided();
      assert forall i :: 0 <= i < 7 ==> b.piles[i].Divided();
    }
    InitialBoardConserves(order);
    assert SumCards(LegacyHomes) == SumCards(NoHomes) by {
      SumCardsEmpty(LegacyHomes);
      SumCardsEmpty(NoHomes);
    }
  }

  /** Tableau pile `n` of the older revision's new game: the older
      `CardPile(adeck, n + 1)` deals it exactly as the current one, since
      the 52 cards never run dry for it. */
  lemma LegacyTableauPile(order: seq<Card>, n: nat)
    requires |order| == 52 && n < 7
    ensures LegacyDealPile(TableauRest(order, 0, n), n + 1).0 == TableauPiles(order, 0, 7)[n]
    ensures LegacyDealPile(TableauRest(order, 0, n), n + 1).1 == TableauRest(order, 0, n + 1)
  {
    TableauStep(order, 0, n, 7);
    TableauRestShape(order, 0, n);
    LegacyDealPileRule(TableauRest(order, 0, n), n + 1);
  }

  /** `deal` keeps the older board's invariant for an amount of zero or
      more, as the current one does. */
  lemma LegacyDealKeepsValid(b: Board, amount: int)
    requires LegacyValid(b) && amount >= 0
    ensures LegacyValid(DealBoard(b, amount))
    ensures CardsOf(DealBoard(b, amount)) == CardsOf(b)
  {}
}
