/** The class `Solitaire` of the current revision (Solitaire/solitaire.py):
    a board of `CardPile` objects that its methods change in place. Every
    method is proved to act on the board's value, `State()`, exactly as the
    functions of module `Rules` say. */
module Game {
  import opened Wrappers
  import opened Cards
  import opened CardPiles
  import opened Rules

  /** The values of a list of piles, in order. */
  function Values(ps: seq<CardPile>): (vs: seq<Pile>)
    reads ps
    ensures |vs| == |ps|
    ensures forall i :: 0 <= i < |ps| ==> vs[i] == ps[i].Value()
  {
    seq(|ps|, i reads ps requires 0 <= i < |ps| => ps[i].Value())
  }

  /** Piles holding the values `vs`, one by one, have the values `vs`. */
  lemma ValuesAre(ps: seq<CardPile>, vs: seq<Pile>)
    requires |ps| == |vs|
    requires forall i :: 0 <= i < |ps| ==> ps[i].Value() == vs[i]
    ensures Values(ps) == vs
  {}

  /** `CardPile(deck, n + 1)` for tableau pile `n` of a new game dealt from
      `order`: `deck` holds what the piles before it left. */
  method DealTableauPile(deck: Deck, ghost order: seq<Card>, n: nat) returns (p: CardPile)
    requires n < 7 && deck.cards == TableauRest(order, 0, n)
    modifies deck
    ensures fresh(p)
    ensures p.Value() == TableauPiles(order, 0, 7)[n]
    ensures deck.cards == TableauRest(order, 0, n + 1)
  {
    TableauStep(order, 0, n, 7);
    p := new CardPile.Deal(deck, n + 1);
  }

  /** `Deck()` followed by `shuffle()`, with the order the shuffle picks
      given as `order`. */
  method ShuffledDeck(order: seq<Card>) returns (deck: Deck)
    requires multiset(order) == multiset(FullDeck())
    ensures fresh(deck) && deck.cards == order
  {
    deck := new Deck();
    deck.Shuffle(order);
  }

  /** The seven tableau piles of `Solitaire()`: `CardPile(deck, 1)` up to
      `CardPile(deck, 7)`, dealt in turn from the shuffled deck `order`. */
  method DealTableau(deck: Deck, ghost order: seq<Card>) returns (ps: seq<CardPile>)
    requires deck.cards == order
    modifies deck
    ensures |ps| == 7
    ensures fresh(ps)
    ensures forall i, j :: 0 <= i < 7 && 0 <= j < 7 && i != j ==> ps[i] != ps[j]
    ensures forall i :: 0 <= i < 7 ==> ps[i].Value() == TableauPiles(order, 0, 7)[i]
    ensures deck.cards == TableauRest(order, 0, 7)
  {
    ps := [];
    for n := 0 to 7
      invariant |ps| == n
      invariant fresh(ps)
      invariant forall i, j :: 0 <= i < n && 0 <= j < n && i != j ==> ps[i] != ps[j]
      invariant forall i :: 0 <= i < n ==> ps[i].Value() == TableauPiles(order, 0, 7)[i]
      invariant deck.cards == TableauRest(order, 0, n)
    {
      var p := DealTableauPile(deck, order, n);
      ps := ps + [p];
    }
  }

  /** The four foundations of `Solitaire()`: `CardPile()` four times. */
  method EmptyHomes() returns (hs: seq<CardPile>)
    ensures |hs| == 4
    ensures fresh(hs)
    ensures forall i, j :: 0 <= i < 4 && 0 <= j < 4 && i != j ==> hs[i] != hs[j]
    ensures forall j :: 0 <= j < 4 ==> hs[j].Value() == EmptyPile
  {
    var h0 := new CardPile.Empty();
    var h1 := new CardPile.Empty();
    var h2 := new CardPile.Empty();
    var h3 := new CardPile.Empty();
    hs := [h0, h1, h2, h3];
  }

  /** No two of the piles are the same object. */
  predicate Separate(d: CardPile, ps: seq<CardPile>, hs: seq<CardPile>)
  {
    && (forall i, j :: 0 <= i < |ps| && 0 <= j < |ps| && i != j ==> ps[i] != ps[j])
    && (forall i, j :: 0 <= i < |hs| && 0 <= j < |hs| && i != j ==> hs[i] != hs[j])
    && (forall i, j :: 0 <= i < |ps| && 0 <= j < |hs| ==> ps[i] != hs[j])
    && d !in ps && d !in hs
  }

  /** The piles `Solitaire()` deals from the shuffled deck `order`, before
      the tableau tops are turned up: the tableau, the foundations and the
      draw pile, each a new object. */
  method NewPiles(order: seq<Card>) returns (d: CardPile, ps: seq<CardPile>, hs: seq<CardPile>)
    requires multiset(order) == multiset(FullDeck())
    ensures fresh(d) && fresh(ps) && fresh(hs)
    ensures |ps| == 7 && |hs| == 4 && Separate(d, ps, hs)
    ensures d.Value() == DealPile(TableauRest(order, 0, 7), 0).0
    ensures Values(ps) == TableauPiles(order, 0, 7)
    ensures Values(hs) == NoHomes
  {
    d, ps := NewTableau(order);
    hs := EmptyHomes();
    ValuesAre(hs, NoHomes);
  }

  /** The first part of `Solitaire()`: the shuffled deck, the tableau dealt
      from it and the draw pile made of what is left. */
  method NewTableau(order: seq<Card>) returns (d: CardPile, ps: seq<CardPile>)
    requires multiset(order) == multiset(FullDeck())
    ensures fresh(d) && fresh(ps)
    ensures |ps| == 7 && d !in ps
    ensures forall i, j :: 0 <= i < 7 && 0 <= j < 7 && i != j ==> ps[i] != ps[j]
    ensures d.Value() == DealPile(TableauRest(order, 0, 7), 0).0
    ensures Values(ps) == TableauPiles(order, 0, 7)
  {
    var source := ShuffledDeck(order);
    ps := DealTableau(source, order);
    d := new CardPile.Deal(source, 0);
    ValuesAre(ps, TableauPiles(order, 0, 7));
  }

  /** The scan of `move_pile` over `get_face_up()` (pairs of a face-up card
      and its index in `cards`): the index of the first card that stacks onto
      `top`. */
  method FindStacking(faceUp: seq<(Card, nat)>, ghost cards: seq<Card>, ghost flip: nat, top: Card)
    returns (found: Option<nat>)
    requires flip <= |cards| && |faceUp| == |cards| - flip
    requires forall k :: 0 <= k < |faceUp| ==> faceUp[k] == (cards[flip + k], flip + k)
    ensures found == FirstStacking(cards, flip, top)
  {
    for i := 0 to |faceUp|
      invariant FirstStacking(cards, flip, top) == FirstStacking(cards, flip + i, top)
    {
      if Stacks(faceUp[i].0, top) {
        return Some(faceUp[i].1);
      }
    }
    return None;
  }

  class Solitaire {
    var deck: CardPile
    var piles: seq<CardPile>
    var homes: seq<CardPile>

    predicate Shaped()
      reads this
    {
      |piles| == 7 && |homes| == 4
    }

    /** Seven tableau piles, four foundations and the draw pile, all of
        them different objects: the source tells them apart by identity. */
    predicate Wired()
      reads this
    {
      Shaped() && Separate(deck, piles, homes)
    }

    /** The pile object a `PileId` names. */
    function Get(id: PileId): CardPile
      reads this
      requires Shaped() && id.Valid()
    {
      match id
      case Deck => deck
      case Tableau(i) => piles[i]
      case Home(j) => homes[j]
    }

    /** The board's value. */
    function State(): (b: Board)
      reads this, deck, piles, homes
      requires Shaped()
      ensures b.Shaped()
      ensures forall id: PileId :: id.Valid() ==> b.Get(id) == Get(id).Value()
    {
      Board(deck.Value(), Values(piles), Values(homes))
    }

    predicate Valid()
      reads this, deck, piles, homes
    {
      Wired() && State().Valid()
    }

    /** Different ids name different pile objects. */
    lemma Apart(a: PileId, b: PileId)
      requires Wired() && a.Valid() && b.Valid() && a != b
      ensures Get(a) != Get(b)
    {}

    /** `Solitaire()` with the shuffled deck `order`: deals the seven tableau
        piles, the four empty foundations and the draw pile, then turns up
        the top card of every tableau pile. */
    constructor (order: seq<Card>)
      requires multiset(order) == multiset(FullDeck())
      ensures Valid()
      ensures State() == InitialBoard(order)
      ensures fresh(deck) && fresh(piles) && fresh(homes)
    {
      var d, ps, hs := NewPiles(order);
      piles := ps;
      homes := hs;
      deck := d;
      new;
      assert State() == Board(DealPile(TableauRest(order, 0, 7), 0).0, TableauPiles(order, 0, 7), NoHomes) by {
      }
      UpdateTableau();
      ShuffledSize(order);
      InitialBoardValid(order);
    }

    /** `_update`: turns up the top card of every tableau pile. */
    method UpdateTableau()
      requires Wired()
      modifies deck, piles, homes
      ensures unchanged(this)
      ensures State() == UpdateAll(old(State()))
    {
      for i := 0 to 7
        invariant forall j :: 0 <= j < i ==> piles[j].Value() == Updated(old(piles[j].Value()))
        invariant forall j :: i <= j < 7 ==> piles[j].Value() == old(piles[j].Value())
        invariant deck.Value() == old(deck.Value())
        invariant forall j :: 0 <= j < 4 ==> homes[j].Value() == old(homes[j].Value())
      {
        piles[i].Update();
      }
      BoardExt(State(), UpdateAll(old(State())));
    }

    /** `deal(amount)`: moves only the divider of the draw pile, and always
        reports success. */
    method Deal(amount: int) returns (r: bool)
      requires Wired()
      modifies deck
      ensures r
      ensures State() == DealBoard(old(State()), amount)
      ensures old(State()).Valid() && amount >= 0 ==> Valid()
    {
      if deck.flip == 0 {
        deck.flip := |deck.pile|;
      } else {
        deck.flip := deck.flip - amount;
        if deck.flip < 0 {
          deck.flip := 0;
        }
      }
      BoardExt(State(), DealBoard(old(State()), amount));
      if old(State()).Valid() && amount >= 0 {
        DealRule(old(State()), amount);
      }
      return true;
    }

    /** `destination.move_card(source, index)` between the piles named `d`
        and `s`. */
    method TransferCard(s: PileId, d: PileId, index: int)
      requires Wired() && s.Valid() && d.Valid()
      requires -|Get(s).pile| <= index < |Get(s).pile|
      modifies Get(s), Get(d)
      ensures unchanged(this)
      ensures State() == MoveCardOn(old(State()), s, d, if index < 0 then |old(Get(s).pile)| + index else index)
    {
      if s == d {
        TransferCardWithin(s, index);
      } else {
        TransferCardAcross(s, d, index);
      }
    }

    /** `move_card` from a pile onto itself: the card goes to the top. */
    method TransferCardWithin(s: PileId, index: int)
      requires Wired() && s.Valid()
      requires -|Get(s).pile| <= index < |Get(s).pile|
      modifies Get(s)
      ensures unchanged(this)
      ensures State() == MoveCardOn(old(State()), s, s, if index < 0 then |old(Get(s).pile)| + index else index)
    {
      ghost var b := State();
      ghost var k := if index < 0 then |Get(s).pile| + index else index;
      ghost var cs := b.Get(s).cards;
      assert cs == Get(s).pile;
      Get(s).MoveCard(Get(s), index);
      ghost var r := State();
      assert r.Get(s) == Pile(cs[..k] + cs[k + 1..] + [cs[k]], b.Get(s).flip);
      forall id: PileId | id.Valid() && id != s ensures r.Get(id) == b.Get(id) {
        var p := Get(id);
        Apart(id, s);
        assert p.Value() == old(p.Value());
      }
      MoveCardOnIs(b, s, s, k, r);
    }

    /** `move_card` between two different piles. */
    method TransferCardAcross(s: PileId, d: PileId, index: int)
      requires Wired() && s.Valid() && d.Valid() && s != d
      requires -|Get(s).pile| <= index < |Get(s).pile|
      modifies Get(s), Get(d)
      ensures unchanged(this)
      ensures State() == MoveCardOn(old(State()), s, d, if index < 0 then |old(Get(s).pile)| + index else index)
    {
      ghost var b := State();
      ghost var k := if index < 0 then |Get(s).pile| + index else index;
      ghost var cs := b.Get(s).cards;
      assert cs == Get(s).pile;
      Apart(s, d);
      Get(d).MoveCard(Get(s), index);
      ghost var r := State();
      assert r.Get(d) == Pile(b.Get(d).cards + [cs[k]], b.Get(d).flip);
      assert r.Get(s) == Pile(cs[..k] + cs[k + 1..], b.Get(s).flip);
      forall id: PileId | id.Valid() && id != s && id != d ensures r.Get(id) == b.Get(id) {
        Apart(id, s);
        Apart(id, d);
        assert Get(id).pile == old(Get(id).pile) && Get(id).flip == old(Get(id).flip);
      }
      MoveCardOnIs(b, s, d, k, r);
    }

    /** `destination.move_cards(source, index)` between the piles named `d`
        and `s`. */
    method TransferRun(s: PileId, d: PileId, index: nat)
      requires Wired() && s.Valid() && d.Valid()
      requires index <= |Get(s).pile|
      modifies Get(s), Get(d)
      ensures unchanged(this)
      ensures State() == MoveCardsOn(old(State()), s, d, index)
    {
      ghost var b := State();
      if s != d {
        Apart(s, d);
      }
      Get(d).MoveCards(Get(s), index);
      ghost var r := State();
      forall id: PileId | id.Valid() && id != s && id != d ensures r.Get(id) == b.Get(id) {
        var p := Get(id);
        Apart(id, s);
        Apart(id, d);
        assert p.Value() == old(p.Value());
      }
      MoveCardsOnIs(b, s, d, index, r);
    }

    /** Makes a legal `move_pile` that pops one card, the card at `index`
        (from the end when negative), and turns up the tableau tops. */
    method CommitCard(s: PileId, d: PileId, index: int)
      requires Valid() && s.Valid() && d.Valid()
      requires -|Get(s).pile| <= index < |Get(s).pile|
      requires MovePilePlan(State(), s, d) == Some(OneCard(if index < 0 then |Get(s).pile| + index else index))
      modifies deck, piles, homes
      ensures State() == MovePileResult(old(State()), s, d)
      ensures Valid()
    {
      ghost var b := State();
      TransferCard(s, d, index);
      UpdateTableau();
      MovePileKeepsValid(b, s, d);
    }

    /** Makes a legal `move_pile` that moves the run from `index` to the
        top, and turns up the tableau tops. */
    method CommitRun(s: PileId, d: PileId, index: nat)
      requires Valid() && s.Valid() && d.Valid()
      requires index <= |Get(s).pile|
      requires MovePilePlan(State(), s, d) == Some(Run(index))
      modifies deck, piles, homes
      ensures State() == MovePileResult(old(State()), s, d)
      ensures Valid()
    {
      ghost var b := State();
      TransferRun(s, d, index);
      UpdateTableau();
      MovePileKeepsValid(b, s, d);
    }

    /** `move_pile(source, destination, move)`: reports whether the move is
        legal and, when `move` is set, makes it and turns up the tableau
        tops. Its four cases are the four methods that follow. */
    method MovePile(s: PileId, d: PileId, move: bool) returns (ok: bool)
      requires Valid() && s.Valid() && d.Valid()
      modifies deck, piles, homes
      ensures ok == CanMovePile(old(State()), s, d)
      ensures State() == if move then MovePileResult(old(State()), s, d) else old(State())
      ensures Valid()
    {
      var src := Get(s);
      if src.flip == |src.pile| {
        MovePileNeedsFaceUp(State(), s, d);
        return false;
      }
      if |Get(d).pile| > 0 {
        if s == PileId.Deck || d.Home? {
          ok := MoveTopCard(s, d, move);
        } else {
          ok := MoveRun(s, d, move);
        }
      } else if d.Home? {
        ok := MoveAce(s, d, move);
      } else {
        ok := MoveKing(s, d, move);
      }
    }

    /** `move_pile` onto a non-empty pile, from the draw pile or onto a
        foundation: one card, the waste card `source[flip]` or else the top
        card, moves when it builds on the foundation or stacks on the pile. */
    method MoveTopCard(s: PileId, d: PileId, move: bool) returns (ok: bool)
      requires Valid() && s.Valid() && d.Valid()
      requires Get(s).flip < |Get(s).pile| && |Get(d).pile| > 0 && (s == PileId.Deck || d.Home?)
      modifies deck, piles, homes
      ensures ok == CanMovePile(old(State()), s, d)
      ensures State() == if move then MovePileResult(old(State()), s, d) else old(State())
      ensures Valid()
    {
      ghost var b := State();
      var src := Get(s);
      var dst := Get(d);
      assert b.Get(s) == src.Value() && b.Get(d) == dst.Value();
      var top := dst.pile[|dst.pile| - 1];
      var card := src.pile[|src.pile| - 1];
      if s == PileId.Deck {
        card := src.pile[src.flip];
      }
      if (d.Home? && Builds(card, top)) || (!d.Home? && Stacks(card, top)) {
        assert MovePilePlan(b, s, d) == Some(OneCard(FirstIndex(src.pile, card)));
        if move {
          var index := src.Index(card);
          CommitCard(s, d, index);
        }
        return true;
      }
      assert MovePilePlan(b, s, d) == None;
      return false;
    }

    /** `move_pile` from a tableau pile onto a non-empty pile that is not a
        foundation: the face-up cards are scanned from the lowest, and the
        run from the first one that stacks on the destination moves. */
    method MoveRun(s: PileId, d: PileId, move: bool) returns (ok: bool)
      requires Valid() && s.Valid() && d.Valid()
      requires Get(s).flip < |Get(s).pile| && |Get(d).pile| > 0 && s != PileId.Deck && !d.Home?
      modifies deck, piles, homes
      ensures ok == CanMovePile(old(State()), s, d)
      ensures State() == if move then MovePileResult(old(State()), s, d) else old(State())
      ensures Valid()
    {
      ghost var b := State();
      var src := Get(s);
      var dst := Get(d);
      assert b.Get(s) == src.Value() && b.Get(d) == dst.Value();
      var top := dst.pile[|dst.pile| - 1];
      var found := FindStacking(src.FaceUp(), src.pile, src.flip, top);
      if found.Some? {
        assert MovePilePlan(b, s, d) == Some(Run(found.value));
        if move {
          CommitRun(s, d, found.value);
        }
        return true;
      }
      assert MovePilePlan(b, s, d) == None;
      return false;
    }

    /** `move_pile` onto an empty foundation: an Ace moves, the waste card
        `source[flip]` from the draw pile, otherwise the top card (index -1). */
    method MoveAce(s: PileId, d: PileId, move: bool) returns (ok: bool)
      requires Valid() && s.Valid() && d.Valid()
      requires Get(s).flip < |Get(s).pile| && |Get(d).pile| == 0 && d.Home?
      modifies deck, piles, homes
      ensures ok == CanMovePile(old(State()), s, d)
      ensures State() == if move then MovePileResult(old(State()), s, d) else old(State())
      ensures Valid()
    {
      ghost var b := State();
      var src := Get(s);
      assert b.Get(s) == src.Value() && b.Get(d) == Get(d).Value();
      var card, index := src.pile[|src.pile| - 1], -1;
      if s == PileId.Deck {
        card, index := src.pile[src.flip], src.flip;
      }
      ghost var k := if index < 0 then |src.pile| + index else index;
      assert card == src.pile[k];
      if card.value == 1 {
        assert MovePilePlan(b, s, d) == Some(OneCard(k));
        if move {
          CommitCard(s, d, index);
        }
        return true;
      }
      assert MovePilePlan(b, s, d) == None;
      return false;
    }

    /** `move_pile` onto an empty pile that is not a foundation: the lowest
        face-up card must be a King bound for a tableau pile; the waste card
        moves alone, a tableau pile's whole face-up run moves with it. */
    method MoveKing(s: PileId, d: PileId, move: bool) returns (ok: bool)
      requires Valid() && s.Valid() && d.Valid()
      requires Get(s).flip < |Get(s).pile| && |Get(d).pile| == 0 && !d.Home?
      modifies deck, piles, homes
      ensures ok == CanMovePile(old(State()), s, d)
      ensures State() == if move then MovePileResult(old(State()), s, d) else old(State())
      ensures Valid()
    {
      ghost var b := State();
      var src := Get(s);
      assert b.Get(s) == src.Value() && b.Get(d) == Get(d).Value();
      var card, index := src.pile[src.flip], src.flip;
      if d.Tableau? && card.value == 13 {
        assert MovePilePlan(b, s, d) == Some(if s == PileId.Deck then OneCard(index) else Run(index));
        if move {
          if s == PileId.Deck {
            CommitCard(s, d, index);
          } else {
            CommitRun(s, d, index);
          }
        }
        return true;
      }
      assert MovePilePlan(b, s, d) == None;
      return false;
    }

    /** The foundation `move_home` picks for a card of `suit`: the first
        whose bottom card has that suit, else the first empty one. */
    method FindHome(suit: Suit) returns (target: Option<nat>)
      requires Shaped()
      ensures target == HomeTarget(State().homes, suit)
    {
      ghost var hs := State().homes;
      forall j | 0 <= j < 4 ensures hs[j] == homes[j].Value() {
        assert State().Get(Home(j)) == Get(Home(j)).Value();
      }
      target := FindSuitHome(hs, suit);
      if target.None? {
        target := FindEmptyHome(hs);
      }
    }

    /** The first search loop of `move_home`: the first foundation whose bottom
        card has the suit. */
    method FindSuitHome(ghost hs: seq<Pile>, suit: Suit) returns (found: Option<nat>)
      requires Shaped() && |hs| == 4
      requires forall j :: 0 <= j < 4 ==> hs[j] == homes[j].Value()
      ensures found == HomeWithSuit(hs, suit, 0)
    {
      for j := 0 to 4
        invariant HomeWithSuit(hs, suit, 0) == HomeWithSuit(hs, suit, j)
      {
        if |homes[j].pile| > 0 && homes[j].pile[0].suit == suit {
          assert HasBottomSuit(hs[j], suit);
          return Some(j);
        }
      }
      return None;
    }

    /** The second search loop of `move_home`: the first empty foundation. */
    method FindEmptyHome(ghost hs: seq<Pile>) returns (found: Option<nat>)
      requires Shaped() && |hs| == 4
      requires forall j :: 0 <= j < 4 ==> hs[j] == homes[j].Value()
      ensures found == FirstEmptyHome(hs, 0)
    {
      for j := 0 to 4
        invariant FirstEmptyHome(hs, 0) == FirstEmptyHome(hs, j)
      {
        if |homes[j].pile| == 0 {
          assert hs[j].cards == [];
          return Some(j);
        }
      }
      return None;
    }

    /** `move_home(source, move)`: finds the foundation for the source's
        card, reports whether the move is legal and, when `move` is set,
        makes it. With no foundation for the card the source raises, which
        is the error result here. */
    method MoveHome(s: PileId, move: bool) returns (r: Result<bool, EngineError>)
      requires Valid() && s.Valid()
      modifies deck, piles, homes
      ensures r == MoveHomeVerdict(old(State()), s)
      ensures State() == if move then MoveHomeResult(old(State()), s) else old(State())
      ensures Valid()
    {
      ghost var b := State();
      var src := Get(s);
      assert b.Get(s) == src.Value();
      if src.flip == |src.pile| {
        assert MoveHomePlan(b, s) == Ok(None);
        MoveHomeUnchangedUnlessLegal(b, s);
        return Ok(false);
      }
      var index := -1;
      if s == PileId.Deck {
        index := src.flip;
      }
      var card := src.pile[if index < 0 then |src.pile| + index else index];
      var target := FindHome(card.suit);
      assert State() == b;
      if target.None? {
        assert MoveHomePlan(b, s) == Err(NoFoundation);
        MoveHomeUnchangedUnlessLegal(b, s);
        return Err(NoFoundation);
      }
      var ok := MoveToHome(s, index, target.value, move);
      return Ok(ok);
    }

    /** The rest of `move_home` once foundation `j` is chosen for the card at
        `index` of the source: an Ace goes onto it when it is empty, a card
        one higher than its top when it is not. */
    method MoveToHome(s: PileId, index: int, j: nat, move: bool) returns (ok: bool)
      requires Valid() && s.Valid() && j < 4
      requires Get(s).flip < |Get(s).pile|
      requires index == if s == PileId.Deck then Get(s).flip else -1
      requires HomeTarget(State().homes, Get(s).pile[if index < 0 then |Get(s).pile| + index else index].suit) == Some(j)
      modifies deck, piles, homes
      ensures Ok(ok) == MoveHomeVerdict(old(State()), s)
      ensures State() == if move then MoveHomeResult(old(State()), s) else old(State())
      ensures Valid()
    {
      ghost var b := State();
      var src := Get(s);
      assert b.Get(s) == src.Value();
      var k := if index < 0 then |src.pile| + index else index;
      var card := src.pile[k];
      var home := homes[j];
      ghost var targetPile := b.homes[j];
      assert targetPile == b.Get(Home(j)) == home.Value();
      if (|home.pile| == 0 && card.value == 1) || (|home.pile| > 0 && card.value == home.pile[|home.pile| - 1].value + 1) {
        assert MoveHomePlan(b, s) == Ok(Some(HomeMove(j, k)));
        if move {
          CommitHome(s, index, j);
        }
        return true;
      }
      assert MoveHomePlan(b, s) == Ok(None) by {
        assert b.Get(s).flip < |b.Get(s).cards| && b.Get(s).cards[k] == card;
        assert !((targetPile.cards == [] && card.value == 1) ||
                 (targetPile.cards != [] && card.value == Top(targetPile).value + 1));
      }
      MoveHomeUnchangedUnlessLegal(b, s);
      return false;
    }

    /** Makes a legal `move_home`: pops the card at `index` (from the end
        when negative) onto foundation `j`, and turns up the tableau tops. */
    method CommitHome(s: PileId, index: int, j: nat)
      requires Valid() && s.Valid() && j < 4
      requires -|Get(s).pile| <= index < |Get(s).pile|
      requires MoveHomePlan(State(), s) == Ok(Some(HomeMove(j, if index < 0 then |Get(s).pile| + index else index)))
      modifies deck, piles, homes
      ensures State() == MoveHomeResult(old(State()), s)
      ensures Valid()
    {
      ghost var b := State();
      TransferCard(s, Home(j), index);
      UpdateTableau();
      MoveHomeKeepsValid(b, s);
    }

    /** `check_win`. */
    function CheckWin(): (r: bool)
      reads this, deck, piles, homes
      requires Shaped()
      ensures r == HasWon(State())
    {
      forall j :: 0 <= j < 4 ==> |homes[j].pile| == 13
    }
  }
}
