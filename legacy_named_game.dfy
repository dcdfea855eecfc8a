/** The class `Solitare` of the older revision in Solitare/Solitare.py: the
    same game as Solitare/solitare.py, with the draw pile in field `pile0`,
    the tableau in fields `pile1` to `pile7` and the foundations in `home1` to
    `home4`, and with no turning up of the source after a move. Every method
    is proved to act on the board's value, `State()`, as the functions of
    module `LegacyRules` say without `reflip`. */
module LegacyNamedGame {
  import opened Wrappers
  import opened Cards
  import CardPiles
  import opened Rules
  import opened LegacyPile
  import opened LegacyRules
  import LegacyDeck
  import LegacyGame

  /** `update` of each of the seven tableau piles just dealt. */
  method TurnUpTableau(ps: seq<CardPile>)
    requires |ps| == 7
    requires forall i, j :: 0 <= i < 7 && 0 <= j < 7 && i != j ==> ps[i] != ps[j]
    modifies set p | p in ps
    ensures forall i :: 0 <= i < 7 ==> ps[i].Value() == CardPiles.Updated(old(ps[i].Value()))
  {
    for i := 0 to 7
      invariant forall k :: 0 <= k < i ==> ps[k].Value() == CardPiles.Updated(old(ps[k].Value()))
      invariant forall k :: i <= k < 7 ==> ps[k].Value() == old(ps[k].Value())
    {
      ps[i].Update();
    }
  }

  /** The piles `Solitare()` deals from the shuffled deck `order`, each
      tableau pile turned up: the updates touch no other pile, so turning
      each one as it is dealt and turning them all after are the same. */
  method NewNamedPiles(order: seq<Card>) returns (d: CardPile, ps: seq<CardPile>, hs: seq<CardPile>)
    requires multiset(order) == multiset(FullDeck())
    ensures fresh(d) && fresh(ps) && fresh(hs)
    ensures |ps| == 7 && |hs| == 4 && LegacyGame.Separate(d, ps, hs)
    ensures Board(d.Value(), LegacyGame.Values(ps), LegacyGame.Values(hs)) == LegacyInitialBoard(order)
  {
    d, ps, hs := LegacyGame.NewPiles(order);
    ghost var dealt := LegacyGame.Values(ps);
    TurnUpTableau(ps);
    ghost var start := Board(d.Value(), dealt, LegacyGame.Values(hs));
    assert LegacyGame.Values(ps) == UpdateAll(start).piles;
  }

  /** The same piles, one by one, in the order of the fields of
      `Solitare`. */
  method TwelvePiles(order: seq<Card>)
    returns (p0: CardPile, p1: CardPile, p2: CardPile, p3: CardPile, p4: CardPile, p5: CardPile, p6: CardPile,
             p7: CardPile, h1: CardPile, h2: CardPile, h3: CardPile, h4: CardPile)
    requires multiset(order) == multiset(FullDeck())
    ensures fresh(p0) && fresh([p1, p2, p3, p4, p5, p6, p7]) && fresh([h1, h2, h3, h4])
    ensures LegacyGame.Separate(p0, [p1, p2, p3, p4, p5, p6, p7], [h1, h2, h3, h4])
    ensures Board(p0.Value(),
      [p1.Value(), p2.Value(), p3.Value(), p4.Value(), p5.Value(), p6.Value(), p7.Value()],
      [h1.Value(), h2.Value(), h3.Value(), h4.Value()]) == LegacyInitialBoard(order)
  {
    var d, ps, hs := NewNamedPiles(order);
    p0, p1, p2, p3, p4, p5, p6, p7 := d, ps[0], ps[1], ps[2], ps[3], ps[4], ps[5], ps[6];
    h1, h2, h3, h4 := hs[0], hs[1], hs[2], hs[3];
    assert [p1, p2, p3, p4, p5, p6, p7] == ps;
    assert [h1, h2, h3, h4] == hs;
    assert [p1.Value(), p2.Value(), p3.Value(), p4.Value(), p5.Value(), p6.Value(), p7.Value()] == LegacyGame.Values(ps);
    assert [h1.Value(), h2.Value(), h3.Value(), h4.Value()] == LegacyGame.Values(hs);
  }

  class Solitare {
    var pile0: CardPile
    var pile1: CardPile
    var pile2: CardPile
    var pile3: CardPile
    var pile4: CardPile
    var pile5: CardPile
    var pile6: CardPile
    var pile7: CardPile
    var home1: CardPile
    var home2: CardPile
    var home3: CardPile
    var home4: CardPile

    /** The tableau fields, `pile1` to `pile7`, in order. */
    function Tableau(): (ps: seq<CardPile>)
      reads this
      ensures |ps| == 7
    {
      [pile1, pile2, pile3, pile4, pile5, pile6, pile7]
    }

    /** The foundation fields, `home1` to `home4`, in order. */
    function Homes(): (hs: seq<CardPile>)
      reads this
      ensures |hs| == 4
    {
      [home1, home2, home3, home4]
    }

    /** The twelve fields hold twelve different piles: the source tells the
        draw pile from the others by identity. */
    predicate Wired()
      reads this
    {
      LegacyGame.Separate(pile0, Tableau(), Homes())
    }

    /** The pile object a `PileId` names. */
    function Get(id: PileId): CardPile
      reads this
      requires id.Valid()
    {
      match id
      case Deck => pile0
      case Tableau(i) => Tableau()[i]
      case Home(j) => Homes()[j]
    }

    /** The board's value. */
    function State(): (b: Board)
      reads this, pile0, pile1, pile2, pile3, pile4, pile5, pile6, pile7, home1, home2, home3, home4
      ensures b.Shaped()
      ensures forall id: PileId :: id.Valid() ==> b.Get(id) == Get(id).Value()
    {
      Board(pile0.Value(),
        [pile1.Value(), pile2.Value(), pile3.Value(), pile4.Value(), pile5.Value(), pile6.Value(), pile7.Value()],
        [home1.Value(), home2.Value(), home3.Value(), home4.Value()])
    }

    predicate Valid()
      reads this, pile0, pile1, pile2, pile3, pile4, pile5, pile6, pile7, home1, home2, home3, home4
    {
      Wired() && LegacyValid(State())
    }

    /** Every id names one of the fields. */
    lemma Framed(id: PileId)
      requires id.Valid()
      ensures Get(id) in {pile0, pile1, pile2, pile3, pile4, pile5, pile6, pile7, home1, home2, home3, home4}
    {}

    /** Different ids name different pile objects. */
    lemma Apart(a: PileId, b: PileId)
      requires Wired() && a.Valid() && b.Valid() && a != b
      ensures Get(a) != Get(b)
    {}

    /** `Solitare()` with the shuffled deck `order`: deals the tableau piles
        one by one, turning each one's top card up as it is dealt, makes the
        four empty foundations and puts the rest of the deck in `pile0`. */
    constructor (order: seq<Card>)
      requires multiset(order) == multiset(FullDeck())
      ensures Valid()
      ensures State() == LegacyInitialBoard(order)
      ensures fresh(pile0) && fresh(Tableau()) && fresh(Homes())
    {
      var p0, p1, p2, p3, p4, p5, p6, p7, h1, h2, h3, h4 := TwelvePiles(order);
      pile0, pile1, pile2, pile3, pile4, pile5, pile6, pile7 := p0, p1, p2, p3, p4, p5, p6, p7;
      home1, home2, home3, home4 := h1, h2, h3, h4;
      new;
      ShuffledSize(order);
      LegacyInitialBoardValid(order);
    }

    /** `deal(amount)`: moves only the divider of the draw pile. */
    method Deal(amount: int)
      requires Wired()
      modifies pile0
      ensures State() == DealBoard(old(State()), amount)
      ensures old(Valid()) && amount >= 0 ==> Valid()
    {
      ghost var b := State();
      if pile0.flip == 0 {
        pile0.flip := |pile0.pile|;
      } else {
        pile0.flip := pile0.flip - amount;
        if pile0.flip < 0 {
          pile0.flip := 0;
        }
      }
      forall id: PileId | id.Valid() && id != PileId.Deck ensures State().Get(id) == b.Get(id) {
        Apart(id, PileId.Deck);
      }
      BoardExt(State(), DealBoard(b, amount));
      if old(Valid()) && amount >= 0 {
        LegacyDealKeepsValid(old(State()), amount);
      }
    }

    /** `dest_pile.pile.append(source_pile.pop(index))` between the piles
        named `s` and `d`. */
    method TransferCard(s: PileId, d: PileId, index: int)
      requires Wired() && s.Valid() && d.Valid()
      requires InRange(|Get(s).pile|, index)
      modifies Get(s), Get(d)
      ensures unchanged(this)
      ensures State() == MoveCardOn(old(State()), s, d, PyIndex(|old(Get(s).pile)|, index))
    {
      if s == d {
        TransferCardWithin(s, index);
      } else {
        TransferCardAcross(s, d, index);
      }
    }

    /** A card popped from a pile and appended to it again. */
    method TransferCardWithin(s: PileId, index: int)
      requires Wired() && s.Valid()
      requires InRange(|Get(s).pile|, index)
      modifies Get(s)
      ensures unchanged(this)
      ensures State() == MoveCardOn(old(State()), s, s, PyIndex(|old(Get(s).pile)|, index))
    {
      ghost var b := State();
      ghost var k := PyIndex(|Get(s).pile|, index);
      ghost var cs := b.Get(s).cards;
      assert cs == Get(s).pile;
      LegacyGame.PopOnto(Get(s), Get(s), index);
      ghost var r := State();
      assert r.Get(s) == CardPiles.Pile(cs[..k] + cs[k + 1..] + [cs[k]], b.Get(s).flip);
      forall id: PileId | id.Valid() && id != s ensures r.Get(id) == b.Get(id) {
        var p := Get(id);
        Apart(id, s);
        assert p.Value() == old(p.Value());
      }
      MoveCardOnIs(b, s, s, k, r);
    }

    /** A card popped from one pile and appended to another. */
    method TransferCardAcross(s: PileId, d: PileId, index: int)
      requires Wired() && s.Valid() && d.Valid() && s != d
      requires InRange(|Get(s).pile|, index)
      modifies Get(s), Get(d)
      ensures unchanged(this)
      ensures State() == MoveCardOn(old(State()), s, d, PyIndex(|old(Get(s).pile)|, index))
    {
      ghost var b := State();
      ghost var k := PyIndex(|Get(s).pile|, index);
      ghost var cs := b.Get(s).cards;
      assert cs == Get(s).pile;
      Apart(s, d);
      LegacyGame.PopOnto(Get(s), Get(d), index);
      ghost var r := State();
      assert r.Get(d) == CardPiles.Pile(b.Get(d).cards + [cs[k]], b.Get(d).flip);
      assert r.Get(s) == CardPiles.Pile(cs[..k] + cs[k + 1..], b.Get(s).flip);
      forall id: PileId | id.Valid() && id != s && id != d ensures r.Get(id) == b.Get(id) {
        Apart(id, s);
        Apart(id, d);
        assert Get(id).pile == old(Get(id).pile) && Get(id).flip == old(Get(id).flip);
      }
      MoveCardOnIs(b, s, d, k, r);
    }

    /** `dest_pile.pile.extend(source_pile[i:])` and
        `del source_pile.pile[i:]` between the piles named `s` and `d`. */
    method TransferRun(s: PileId, d: PileId, i: nat)
      requires Wired() && s.Valid() && d.Valid()
      requires i <= |Get(s).pile|
      modifies Get(s), Get(d)
      ensures unchanged(this)
      ensures State() == MoveCardsOn(old(State()), s, d, i)
    {
      ghost var b := State();
      if s != d {
        Apart(s, d);
      }
      LegacyGame.ExtendCut(Get(s), Get(d), i);
      ghost var r := State();
      forall id: PileId | id.Valid() && id != s && id != d ensures r.Get(id) == b.Get(id) {
        var p := Get(id);
        Apart(id, s);
        Apart(id, d);
        assert p.Value() == old(p.Value());
      }
      MoveCardsOnIs(b, s, d, i, r);
    }

    /** `movepile(source_pile, dest_pile)`: reports whether the move is legal
        and makes it when it is, leaving the source's divider where it was; a
        King asked of a pile too short for `source_pile[flip]` raises. Its
        three cases are the methods that follow. */
    method MovePile(s: PileId, d: PileId) returns (r: Result<bool, LegacyDeck.IndexError>)
      requires Valid() && s.Valid() && d.Valid()
      modifies pile0, pile1, pile2, pile3, pile4, pile5, pile6, pile7, home1, home2, home3, home4
      ensures r == Verdict(LegacyMovePile(old(State()), s, d, false))
      ensures State() == After(old(State()), LegacyMovePile(old(State()), s, d, false))
      ensures Valid()
    {
      var src := Get(s);
      if src.flip == |src.pile| {
        LegacyMovePileNeedsFaceUp(State(), s, d, false);
        return Ok(false);
      }
      if |Get(d).pile| > 0 {
        if s == PileId.Deck {
          r := MoveWasteCard(d);
        } else {
          r := MoveRun(s, d);
        }
      } else {
        r := MoveKing(s, d);
      }
    }

    /** `movepile` from `pile0` onto a non-empty pile: the waste card
        `source_pile[flip]` moves when it stacks on the top card. */
    method MoveWasteCard(d: PileId) returns (r: Result<bool, LegacyDeck.IndexError>)
      requires Valid() && d.Valid()
      requires pile0.flip != |pile0.pile| && |Get(d).pile| > 0
      modifies pile0, pile1, pile2, pile3, pile4, pile5, pile6, pile7, home1, home2, home3, home4
      ensures r == Verdict(LegacyMovePile(old(State()), PileId.Deck, d, false))
      ensures State() == After(old(State()), LegacyMovePile(old(State()), PileId.Deck, d, false))
      ensures Valid()
    {
      ghost var b := State();
      var dst := Get(d);
      assert b.Get(PileId.Deck) == pile0.Value() && b.Get(d) == dst.Value();
      var top := dst.pile[|dst.pile| - 1];
      if Stacks(pile0.pile[pile0.flip], top) {
        assert LegacyMovePile(b, PileId.Deck, d, false) == Ok(Outcome(true, MoveCardOn(b, PileId.Deck, d, pile0.flip)));
        CommitCard(PileId.Deck, d, pile0.flip);
        return Ok(true);
      }
      assert LegacyMovePile(b, PileId.Deck, d, false) == Ok(Outcome(false, b));
      return Ok(false);
    }

    /** `movepile` from a tableau pile or foundation onto a non-empty pile:
        the run from the first face-up card that stacks on the top card
        moves. */
    method MoveRun(s: PileId, d: PileId) returns (r: Result<bool, LegacyDeck.IndexError>)
      requires Valid() && s.Valid() && d.Valid() && s != PileId.Deck
      requires Get(s).flip != |Get(s).pile| && |Get(d).pile| > 0
      modifies pile0, pile1, pile2, pile3, pile4, pile5, pile6, pile7, home1, home2, home3, home4
      ensures r == Verdict(LegacyMovePile(old(State()), s, d, false))
      ensures State() == After(old(State()), LegacyMovePile(old(State()), s, d, false))
      ensures Valid()
    {
      ghost var b := State();
      var src := Get(s);
      var dst := Get(d);
      assert b.Get(s) == src.Value() && b.Get(d) == dst.Value();
      var top := dst.pile[|dst.pile| - 1];
      var start := SliceStart(|src.pile|, src.flip);
      var i := start;
      while i < |src.pile| && !Stacks(src.pile[i], top)
        invariant start <= i <= |src.pile|
        invariant FirstStacking(src.pile, start, top) == FirstStacking(src.pile, i, top)
      {
        i := i + 1;
      }
      if i == |src.pile| {
        assert LegacyMovePile(b, s, d, false) == Ok(Outcome(false, b));
        return Ok(false);
      }
      assert LegacyMovePile(b, s, d, false) == Ok(Outcome(true, MoveCardsOn(b, s, d, i)));
      CommitRun(s, d, i);
      return Ok(true);
    }

    /** Makes a legal `movepile` of the run from `k`. */
    method CommitRun(s: PileId, d: PileId, k: nat)
      requires Valid() && s.Valid() && d.Valid()
      requires k <= |Get(s).pile|
      requires LegacyMovePile(State(), s, d, false) == Ok(Outcome(true, MoveCardsOn(State(), s, d, k)))
      modifies pile0, pile1, pile2, pile3, pile4, pile5, pile6, pile7, home1, home2, home3, home4
      ensures State() == MoveCardsOn(old(State()), s, d, k)
      ensures Valid()
    {
      LegacyMovePileKeepsValid(State(), s, d, false);
      Framed(s);
      Framed(d);
      TransferRun(s, d, k);
    }

    /** Makes a legal `movepile` of the one card at `index`. */
    method CommitCard(s: PileId, d: PileId, index: int)
      requires Valid() && s.Valid() && d.Valid()
      requires InRange(|Get(s).pile|, index)
      requires LegacyMovePile(State(), s, d, false)
        == Ok(Outcome(true, MoveCardOn(State(), s, d, PyIndex(|Get(s).pile|, index))))
      modifies pile0, pile1, pile2, pile3, pile4, pile5, pile6, pile7, home1, home2, home3, home4
      ensures State() == MoveCardOn(old(State()), s, d, PyIndex(|old(Get(s).pile)|, index))
      ensures Valid()
    {
      LegacyMovePileKeepsValid(State(), s, d, false);
      Framed(s);
      Framed(d);
      TransferCard(s, d, index);
    }

    /** `movepile` onto an empty pile: a King at `source_pile[flip]` moves,
        alone from `pile0`, with the run above it from any other pile. */
    method MoveKing(s: PileId, d: PileId) returns (r: Result<bool, LegacyDeck.IndexError>)
      requires Valid() && s.Valid() && d.Valid()
      requires Get(s).flip != |Get(s).pile| && |Get(d).pile| == 0
      modifies pile0, pile1, pile2, pile3, pile4, pile5, pile6, pile7, home1, home2, home3, home4
      ensures r == Verdict(LegacyMovePile(old(State()), s, d, false))
      ensures State() == After(old(State()), LegacyMovePile(old(State()), s, d, false))
      ensures Valid()
    {
      ghost var b := State();
      var src := Get(s);
      assert b.Get(s) == src.Value() && b.Get(d) == Get(d).Value();
      if !InRange(|src.pile|, src.flip) {
        return Err(LegacyDeck.IndexError);
      }
      var i := PyIndex(|src.pile|, src.flip);
      if src.pile[i].value != 13 {
        assert LegacyMovePile(b, s, d, false) == Ok(Outcome(false, b));
        return Ok(false);
      }
      if s == PileId.Deck {
        assert LegacyMovePile(b, s, d, false) == Ok(Outcome(true, MoveCardOn(b, s, d, i)));
        CommitCard(s, d, src.flip);
      } else {
        assert LegacyMovePile(b, s, d, false) == Ok(Outcome(true, MoveCardsOn(b, s, d, i)));
        CommitRun(s, d, i);
      }
      return Ok(true);
    }

    /** `movehome(source_pile)`: the card of a source with a face-up card,
        the waste card of `pile0` or the top card of any other pile, goes to
        the foundation of its suit (`home1` to `home4` for Spade, Heart, Club,
        Diamond) when it is an Ace and that is empty, or one higher than its
        top. */
    method MoveHome(s: PileId) returns (r: Result<bool, LegacyDeck.IndexError>)
      requires Valid() && s.Valid()
      modifies pile0, pile1, pile2, pile3, pile4, pile5, pile6, pile7, home1, home2, home3, home4
      ensures r == Verdict(LegacyMoveHome(old(State()), s, false))
      ensures State() == After(old(State()), LegacyMoveHome(old(State()), s, false))
      ensures Valid()
    {
      ghost var b := State();
      var src := Get(s);
      assert b.Get(s) == src.Value();
      if |src.pile| == 0 || src.flip == |src.pile| {
        return Ok(false);
      }
      var index := if s == PileId.Deck then src.flip else -1;
      assert index == ShownIndex(b, s);
      var i := PyIndex(|src.pile|, index);
      var card := src.pile[i];
      var j := SuitSlot(card.suit);
      var dest := Get(Home(j));
      assert b.homes[j] == dest.Value();
      var legal := if |dest.pile| > 0 then card.value == dest.pile[|dest.pile| - 1].value + 1 else card.value == 1;
      ghost var res := LegacyMoveHome(b, s, false);
      if !legal {
        assert res == Ok(Outcome(false, b));
        return Ok(false);
      }
      assert res == Ok(Outcome(true, Reflip(MoveCardOn(b, s, Home(j), i), s, false)));
      CommitHome(s, index, j);
      return Ok(true);
    }

    /** Makes a legal `movehome`: pops the card at `index` onto foundation
        `j`. */
    method CommitHome(s: PileId, index: int, j: nat)
      requires Valid() && s.Valid() && j < 4
      requires InRange(|Get(s).pile|, index)
      requires LegacyMoveHome(State(), s, false)
        == Ok(Outcome(true, Reflip(MoveCardOn(State(), s, Home(j), PyIndex(|Get(s).pile|, index)), s, false)))
      modifies pile0, pile1, pile2, pile3, pile4, pile5, pile6, pile7, home1, home2, home3, home4
      ensures State() == MoveCardOn(old(State()), s, Home(j), PyIndex(|old(Get(s).pile)|, index))
      ensures Valid()
    {
      LegacyMoveHomeKeepsValid(State(), s, false);
      Framed(s);
      TransferCard(s, Home(j), index);
    }

    /** `checkwin`. */
    function CheckWin(): (r: Option<bool>)
      reads this, pile0, pile1, pile2, pile3, pile4, pile5, pile6, pile7, home1, home2, home3, home4
      ensures r == LegacyCheckWin(State())
    {
      if |home1.pile| == 13 && |home2.pile| == 13 && |home3.pile| == 13 && |home4.pile| == 13
      then Some(true) else None
    }
  }
}
