/** The class `Solitare` of the older revision in Solitare/solitare.py: a
    draw pile, a list of seven tableau piles and a list of four foundations,
    all older `CardPile` objects, changed in place. Every method is proved to
    act on the board's value, `State()`, as the functions of module
    `LegacyRules` say with the source turned up after a move (`reflip`). */
module LegacyGame {
  import opened Wrappers
  import opened Cards
  import CardPiles
  import opened Rules
  import opened LegacyPile
  import opened LegacyRules
  import LegacyDeck

  /** The values of a list of piles, in order. */
  function Values(ps: seq<CardPile>): (vs: seq<CardPiles.Pile>)
    reads ps
    ensures |vs| == |ps|
    ensures forall i :: 0 <= i < |ps| ==> vs[i] == ps[i].Value()
  {
    seq(|ps|, i reads ps requires 0 <= i < |ps| => ps[i].Value())
  }

  /** `dest.pile.append(source.pop(index))`: the card at `index` (from the
      end when negative) leaves `source` and lands on `dest`, which may be
      `source` itself. */
  method PopOnto(source: CardPile, dest: CardPile, index: int)
    requires InRange(|source.pile|, index)
    modifies source, dest
    ensures source.flip == old(source.flip) && dest.flip == old(dest.flip)
    ensures var k := PyIndex(|old(source.pile)|, index);
      if source == dest then
        dest.pile == old(source.pile[..k] + source.pile[k + 1..]) + [old(source.pile[k])]
      else
        && dest.pile == old(dest.pile) + [old(source.pile[k])]
        && source.pile == old(source.pile[..k] + source.pile[k + 1..])
  {
    var card := source.Pop(index);
    dest.pile := dest.pile + [card.value];
  }

  /** `dest.pile.extend(source[i:])` then `del source.pile[i:]`: the run
      from `i` is copied onto `dest`, then cut from `source`. On one pile
      the cut takes the copy with it. */
  method ExtendCut(source: CardPile, dest: CardPile, i: nat)
    requires i <= |source.pile|
    modifies source, dest
    ensures source.flip == old(source.flip) && dest.flip == old(dest.flip)
    ensures source != dest ==> dest.pile == old(dest.pile) + old(source.pile[i..])
    ensures source != dest ==> source.pile == old(source.pile[..i])
    ensures source == dest ==> dest.pile == old(source.pile[..i])
  {
    var run := source.pile[i..];
    dest.pile := dest.pile + run;
    source.pile := source.pile[..i];
  }

  /** The `for card in source_pile[flip:]` scan of `movepile`: the position
      of the first card from `start` up that stacks on `top`. */
  method ScanFrom(cards: seq<Card>, start: nat, top: Card) returns (found: Option<nat>)
    ensures found == FirstStacking(cards, start, top)
  {
    var i := start;
    while i < |cards|
      invariant start <= i
      invariant FirstStacking(cards, start, top) == FirstStacking(cards, i, top)
    {
      if Stacks(cards[i], top) {
        return Some(i);
      }
      i := i + 1;
    }
    return None;
  }

  /** No two of the piles are the same object. */
  predicate Separate(d: CardPile, ps: seq<CardPile>, hs: seq<CardPile>)
  {
    && (forall i, j :: 0 <= i < |ps| && 0 <= j < |ps| && i != j ==> ps[i] != ps[j])
    && (forall i, j :: 0 <= i < |hs| && 0 <= j < |hs| && i != j ==> hs[i] != hs[j])
    && (forall i, j :: 0 <= i < |ps| && 0 <= j < |hs| ==> ps[i] != hs[j])
    && d !in ps && d !in hs
  }

  /** `CardPile(adeck, n + 1)` for tableau pile `n` of a new game dealt from
      `order`: `adeck` holds what the piles before it left. */
  method DealTableauPile(adeck: LegacyDeck.Deck, ghost order: seq<Card>, n: nat) returns (p: CardPile)
    requires |order| == 52 && n < 7 && adeck.deck == TableauRest(order, 0, n)
    modifies adeck
    ensures fresh(p)
    ensures p.Value() == TableauPiles(order, 0, 7)[n]
    ensures adeck.deck == TableauRest(order, 0, n + 1)
  {
    LegacyTableauPile(order, n);
    p := new CardPile.Deal(adeck, n + 1);
  }

  /** The seven tableau piles of `Solitare()`, `CardPile(adeck, 1)` up to
      `CardPile(adeck, 7)`, dealt in turn from the shuffled deck `order`. */
  method DealTableau(adeck: LegacyDeck.Deck, ghost order: seq<Card>) returns (ps: seq<CardPile>)
    requires |order| == 52 && adeck.deck == order
    modifies adeck
    ensures |ps| == 7
    ensures fresh(ps)
    ensures forall i, j :: 0 <= i < 7 && 0 <= j < 7 && i != j ==> ps[i] != ps[j]
    ensures forall i :: 0 <= i < 7 ==> ps[i].Value() == TableauPiles(order, 0, 7)[i]
    ensures adeck.deck == TableauRest(order, 0, 7)
  {
    ps := [];
    for n := 0 to 7
      invariant |ps| == n
      invariant fresh(ps)
      invariant forall i, j :: 0 <= i < n && 0 <= j < n && i != j ==> ps[i] != ps[j]
      invariant forall i :: 0 <= i < n ==> ps[i].Value() == TableauPiles(order, 0, 7)[i]
      invariant adeck.deck == TableauRest(order, 0, n)
    {
      var p := DealTableauPile(adeck, order, n);
      ps := ps + [p];
    }
  }

  /** The four foundations of `Solitare()`: `CardPile()` four times. */
  method EmptyHomes() returns (hs: seq<CardPile>)
    ensures |hs| == 4
    ensures fresh(hs)
    ensures forall i, j :: 0 <= i < 4 && 0 <= j < 4 && i != j ==> hs[i] != hs[j]
    ensures Values(hs) == LegacyHomes
  {
    var h0 := new CardPile.Empty();
    var h1 := new CardPile.Empty();
    var h2 := new CardPile.Empty();
    var h3 := new CardPile.Empty();
    hs := [h0, h1, h2, h3];
  }

  /** The piles `Solitare()` deals from the shuffled deck `order`, before
      the tableau tops are turned up: the tableau, the foundations and the
      draw pile, each a new object. */
  method NewPiles(order: seq<Card>) returns (d: CardPile, ps: seq<CardPile>, hs: seq<CardPile>)
    requires multiset(order) == multiset(FullDeck())
    ensures fresh(d) && fresh(ps) && fresh(hs)
    ensures |ps| == 7 && |hs| == 4 && Separate(d, ps, hs)
    ensures d.Value() == LegacyDealPile(TableauRest(order, 0, 7), 0).0
    ensures Values(ps) == TableauPiles(order, 0, 7)
    ensures Values(hs) == LegacyHomes
  {
    ShuffledSize(order);
    var adeck := new LegacyDeck.Deck();
    adeck.Shuffle(order);
    ps := DealTableau(adeck, order);
    hs := EmptyHomes();
    d := new CardPile.Deal(adeck, 0);
  }

  class Solitare {
    var deck: CardPile
    var piles: seq<CardPile>
    var homes: seq<CardPile>

    predicate Shaped()
      reads this
    {
      |piles| == 7 && |homes| == 4
    }

    /** Seven tableau piles, four foundations and the draw pile, all of
        them different objects: the source tells them apart by identity. */
    predicate Wired()
      reads this
    {
      Shaped() && Separate(deck, piles, homes)
    }

    /** The pile object a `PileId` names. */
    function Get(id: PileId): CardPile
      reads this
      requires Shaped() && id.Valid()
    {
      match id
      case Deck => deck
      case Tableau(i) => piles[i]
      case Home(j) => homes[j]
    }

    /** The board's value. */
    function State(): (b: Board)
      reads this, deck, piles, homes
      requires Shaped()
      ensures b.Shaped()
      ensures forall id: PileId :: id.Valid() ==> b.Get(id) == Get(id).Value()
    {
      Board(deck.Value(), Values(piles), Values(homes))
    }

    predicate Valid()
      reads this, deck, piles, homes
    {
      Wired() && LegacyValid(State())
    }

    /** Different ids name different pile objects. */
    lemma Apart(a: PileId, b: PileId)
      requires Wired() && a.Valid() && b.Valid() && a != b
      ensures Get(a) != Get(b)
    {}

    /** `Solitare()` with the shuffled deck `order`: deals the seven tableau
        piles and turns each one's top card up, makes the four empty
        foundations and puts the rest of the deck in the draw pile. */
    constructor (order: seq<Card>)
      requires multiset(order) == multiset(FullDeck())
      ensures Valid()
      ensures State() == LegacyInitialBoard(order)
      ensures fresh(deck) && fresh(piles) && fresh(homes)
    {
      var d, ps, hs := NewPiles(order);
      piles := ps;
      homes := hs;
      deck := d;
      new;
      assert State() == Board(LegacyDealPile(TableauRest(order, 0, 7), 0).0, TableauPiles(order, 0, 7), LegacyHomes);
      UpdateTableau();
      ShuffledSize(order);
      LegacyInitialBoardValid(order);
    }

    /** The `update` of every tableau pile in `Solitare()`. */
    method UpdateTableau()
      requires Wired()
      modifies deck, piles, homes
      ensures unchanged(this)
      ensures State() == UpdateAll(old(State()))
    {
      for i := 0 to 7
        invariant forall j :: 0 <= j < i ==> piles[j].Value() == CardPiles.Updated(old(piles[j].Value()))
        invariant forall j :: i <= j < 7 ==> piles[j].Value() == old(piles[j].Value())
        invariant deck.Value() == old(deck.Value())
        invariant forall j :: 0 <= j < 4 ==> homes[j].Value() == old(homes[j].Value())
      {
        piles[i].Update();
      }
      BoardExt(State(), UpdateAll(old(State())));
    }

    /** `deal(amount)`: moves only the divider of the draw pile. */
    method Deal(amount: int)
      requires Wired()
      modifies deck
      ensures State() == DealBoard(old(State()), amount)
      ensures old(Valid()) && amount >= 0 ==> Valid()
    {
      if deck.flip == 0 {
        deck.flip := |deck.pile|;
      } else {
        deck.flip := deck.flip - amount;
        if deck.flip < 0 {
          deck.flip := 0;
        }
      }
      BoardExt(State(), DealBoard(old(State()), amount));
      if old(Valid()) && amount >= 0 {
        LegacyDealKeepsValid(old(State()), amount);
      }
    }

    /** `dest.pile.append(source.pop(index))` between the piles named `d`
        and `s`. */
    method TransferCard(s: PileId, d: PileId, index: int)
      requires Wired() && s.Valid() && d.Valid()
      requires InRange(|Get(s).pile|, index)
      modifies Get(s), Get(d)
      ensures unchanged(this)
      ensures State() == MoveCardOn(old(State()), s, d, PyIndex(|old(Get(s).pile)|, index))
    {
      if s == d {
        TransferCardWithin(s, index);
      } else {
        TransferCardAcross(s, d, index);
      }
    }

    /** A card popped from a pile and appended to it again. */
    method TransferCardWithin(s: PileId, index: int)
      requires Wired() && s.Valid()
      requires InRange(|Get(s).pile|, index)
      modifies Get(s)
      ensures unchanged(this)
      ensures State() == MoveCardOn(old(State()), s, s, PyIndex(|old(Get(s).pile)|, index))
    {
      ghost var b := State();
      ghost var k := PyIndex(|Get(s).pile|, index);
      ghost var cs := b.Get(s).cards;
      assert cs == Get(s).pile;
      PopOnto(Get(s), Get(s), index);
      ghost var r := State();
      assert r.Get(s) == CardPiles.Pile(cs[..k] + cs[k + 1..] + [cs[k]], b.Get(s).flip);
      forall id: PileId | id.Valid() && id != s ensures r.Get(id) == b.Get(id) {
        var p := Get(id);
        Apart(id, s);
        assert p.Value() == old(p.Value());
      }
      MoveCardOnIs(b, s, s, k, r);
    }

    /** A card popped from one pile and appended to another. */
    method TransferCardAcross(s: PileId, d: PileId, index: int)
      requires Wired() && s.Valid() && d.Valid() && s != d
      requires InRange(|Get(s).pile|, index)
      modifies Get(s), Get(d)
      ensures unchanged(this)
      ensures State() == MoveCardOn(old(State()), s, d, PyIndex(|old(Get(s).pile)|, index))
    {
      ghost var b := State();
      ghost var k := PyIndex(|Get(s).pile|, index);
      ghost var cs := b.Get(s).cards;
      assert cs == Get(s).pile;
      Apart(s, d);
      PopOnto(Get(s), Get(d), index);
      ghost var r := State();
      assert r.Get(d) == CardPiles.Pile(b.Get(d).cards + [cs[k]], b.Get(d).flip);
      assert r.Get(s) == CardPiles.Pile(cs[..k] + cs[k + 1..], b.Get(s).flip);
      forall id: PileId | id.Valid() && id != s && id != d ensures r.Get(id) == b.Get(id) {
        Apart(id, s);
        Apart(id, d);
        assert Get(id).pile == old(Get(id).pile) && Get(id).flip == old(Get(id).flip);
      }
      MoveCardOnIs(b, s, d, k, r);
    }

    /** `dest.pile.extend(source[i:])` and `del source.pile[i:]` between the
        piles named `d` and `s`. */
    method TransferRun(s: PileId, d: PileId, i: nat)
      requires Wired() && s.Valid() && d.Valid()
      requires i <= |Get(s).pile|
      modifies Get(s), Get(d)
      ensures unchanged(this)
      ensures State() == MoveCardsOn(old(State()), s, d, i)
    {
      ghost var b := State();
      if s != d {
        Apart(s, d);
      }
      ExtendCut(Get(s), Get(d), i);
      ghost var r := State();
      forall id: PileId | id.Valid() && id != s && id != d ensures r.Get(id) == b.Get(id) {
        var p := Get(id);
        Apart(id, s);
        Apart(id, d);
        assert p.Value() == old(p.Value());
      }
      MoveCardsOnIs(b, s, d, i, r);
    }

    /** `source_pile.update()` after a move. */
    method TurnUp(s: PileId)
      requires Wired() && s.Valid()
      modifies Get(s)
      ensures unchanged(this)
      ensures State() == Reflip(old(State()), s, true)
    {
      ghost var b := State();
      Get(s).Update();
      ghost var r := State();
      forall id: PileId | id.Valid() && id != s ensures r.Get(id) == b.Get(id) {
        var p := Get(id);
        Apart(id, s);
        assert p.Value() == old(p.Value());
      }
      BoardExt(r, Reflip(b, s, true));
    }

    /** `movepile(source, dest)`: reports whether the move is legal and makes
        it when it is; a King asked of a pile too short for `source[flip]`
        raises. Its three cases are the methods that follow. */
    method MovePile(s: PileId, d: PileId) returns (r: Result<bool, LegacyDeck.IndexError>)
      requires Valid() && s.Valid() && d.Valid()
      modifies deck, piles, homes
      ensures r == Verdict(LegacyMovePile(old(State()), s, d, true))
      ensures State() == After(old(State()), LegacyMovePile(old(State()), s, d, true))
      ensures Valid()
    {
      var src := Get(s);
      if src.flip == |src.pile| {
        LegacyMovePileNeedsFaceUp(State(), s, d, true);
        return Ok(false);
      }
      if |Get(d).pile| > 0 {
        if s == PileId.Deck {
          r := MoveWasteCard(d);
        } else {
          r := MoveRun(s, d);
        }
      } else {
        r := MoveKing(s, d);
      }
    }

    /** `movepile` from the draw pile onto a non-empty pile: the waste card
        `source[flip]` moves when it stacks on the top card. */
    method MoveWasteCard(d: PileId) returns (r: Result<bool, LegacyDeck.IndexError>)
      requires Valid() && d.Valid()
      requires deck.flip != |deck.pile| && |Get(d).pile| > 0
      modifies deck, piles, homes
      ensures r == Verdict(LegacyMovePile(old(State()), PileId.Deck, d, true))
      ensures State() == After(old(State()), LegacyMovePile(old(State()), PileId.Deck, d, true))
      ensures Valid()
    {
      ghost var b := State();
      LegacyMovePileKeepsValid(b, PileId.Deck, d, true);
      var dst := Get(d);
      assert b.Get(PileId.Deck) == deck.Value() && b.Get(d) == dst.Value();
      var top := dst.pile[|dst.pile| - 1];
      if Stacks(deck.pile[deck.flip], top) {
        TransferCard(PileId.Deck, d, deck.flip);
        return Ok(true);
      }
      return Ok(false);
    }

    /** `movepile` from a tableau pile or foundation onto a non-empty pile:
        the run from the first face-up card that stacks on the top card
        moves, and the source is turned up. */
    method MoveRun(s: PileId, d: PileId) returns (r: Result<bool, LegacyDeck.IndexError>)
      requires Valid() && s.Valid() && d.Valid() && s != PileId.Deck
      requires Get(s).flip != |Get(s).pile| && |Get(d).pile| > 0
      modifies deck, piles, homes
      ensures r == Verdict(LegacyMovePile(old(State()), s, d, true))
      ensures State() == After(old(State()), LegacyMovePile(old(State()), s, d, true))
      ensures Valid()
    {
      ghost var b := State();
      LegacyMovePileKeepsValid(b, s, d, true);
      var src := Get(s);
      var dst := Get(d);
      assert b.Get(s) == src.Value() && b.Get(d) == dst.Value();
      var top := dst.pile[|dst.pile| - 1];
      var found := ScanFrom(src.pile, SliceStart(|src.pile|, src.flip), top);
      if found.Some? {
        TransferRun(s, d, found.value);
        TurnUp(s);
        return Ok(true);
      }
      return Ok(false);
    }

    /** `movepile` onto an empty pile: a King at `source[flip]` moves, alone
        from the draw pile, with the run above it from any other pile, which
        is then turned up. */
    method MoveKing(s: PileId, d: PileId) returns (r: Result<bool, LegacyDeck.IndexError>)
      requires Valid() && s.Valid() && d.Valid()
      requires Get(s).flip != |Get(s).pile| && |Get(d).pile| == 0
      modifies deck, piles, homes
      ensures r == Verdict(LegacyMovePile(old(State()), s, d, true))
      ensures State() == After(old(State()), LegacyMovePile(old(State()), s, d, true))
      ensures Valid()
    {
      ghost var b := State();
      LegacyMovePileKeepsValid(b, s, d, true);
      var src := Get(s);
      assert b.Get(s) == src.Value() && b.Get(d) == Get(d).Value();
      if !InRange(|src.pile|, src.flip) {
        return Err(LegacyDeck.IndexError);
      }
      var i := PyIndex(|src.pile|, src.flip);
      if src.pile[i].value != 13 {
        return Ok(false);
      }
      if s == PileId.Deck {
        TransferCard(s, d, src.flip);
      } else {
        TransferRun(s, d, i);
        TurnUp(s);
      }
      return Ok(true);
    }

    /** `movehome(source)`: the card of a source with a face-up card, the
        waste card of the draw pile or the top card of any other pile, goes
        to the foundation of its suit when it is an Ace and that is empty,
        or one higher than its top; the source is then turned up. */
    method MoveHome(s: PileId) returns (r: Result<bool, LegacyDeck.IndexError>)
      requires Valid() && s.Valid()
      modifies deck, piles, homes
      ensures r == Verdict(LegacyMoveHome(old(State()), s, true))
      ensures State() == After(old(State()), LegacyMoveHome(old(State()), s, true))
      ensures Valid()
    {
      ghost var b := State();
      var src := Get(s);
      assert b.Get(s) == src.Value();
      if |src.pile| == 0 || src.flip == |src.pile| {
        return Ok(false);
      }
      var index := if s == PileId.Deck then src.flip else -1;
      assert index == ShownIndex(b, s);
      var i := PyIndex(|src.pile|, index);
      var card := src.pile[i];
      var j := SuitSlot(card.suit);
      var dest := homes[j];
      assert b.homes[j] == dest.Value();
      var legal := if |dest.pile| > 0 then card.value == dest.pile[|dest.pile| - 1].value + 1 else card.value == 1;
      ghost var res := LegacyMoveHome(b, s, true);
      if !legal {
        assert res == Ok(Outcome(false, b));
        return Ok(false);
      }
      assert res == Ok(Outcome(true, Reflip(MoveCardOn(b, s, Home(j), i), s, true)));
      CommitHome(s, index, j);
      return Ok(true);
    }

    /** Makes a legal `movehome`: pops the card at `index` onto foundation
        `j` and turns the source up. */
    method CommitHome(s: PileId, index: int, j: nat)
      requires Valid() && s.Valid() && j < 4
      requires InRange(|Get(s).pile|, index)
      requires LegacyMoveHome(State(), s, true)
        == Ok(Outcome(true, Reflip(MoveCardOn(State(), s, Home(j), PyIndex(|Get(s).pile|, index)), s, true)))
      modifies deck, piles, homes
      ensures State() == Reflip(MoveCardOn(old(State()), s, Home(j), PyIndex(|old(Get(s).pile)|, index)), s, true)
      ensures Valid()
    {
      LegacyMoveHomeKeepsValid(State(), s, true);
      TransferCard(s, Home(j), index);
      TurnUp(s);
    }

    /** `checkwin`. */
    function CheckWin(): (r: Option<bool>)
      reads this, deck, piles, homes
      requires Shaped()
      ensures r == LegacyCheckWin(State())
    {
      if |homes[0].pile| == 13 && |homes[1].pile| == 13 && |homes[2].pile| == 13 && |homes[3].pile| == 13
      then Some(true) else None
    }
  }
}
