/** The rules of `Solitaire` (Solitaire/solitaire.py) stated on values: a board
    is the draw/waste pile, seven tableau piles and four foundations, and each
    operation of the game is a function from board to board. The class
    `Game.Solitaire` is proved to act as these functions say. */
module Rules {
  import opened Wrappers
  import opened Cards
  import opened CardPiles

  /** A pile of the board, as the source names it by identity: the draw/waste
      pile `deck`, `piles[i]` or `homes[j]`. */
  datatype PileId = Deck | Tableau(i: nat) | Home(j: nat) {
    predicate Valid()
    {
      match this
      case Deck => true
      case Tableau(i) => i < 7
      case Home(j) => j < 4
    }
  }

  datatype Board = Board(deck: Pile, piles: seq<Pile>, homes: seq<Pile>) {

    predicate Shaped()
    {
      |piles| == 7 && |homes| == 4
    }

    /** Every pile keeps its divider between 0 and its length. */
    predicate Valid()
    {
      && Shaped()
      && deck.Divided()
      && (forall i :: 0 <= i < |piles| ==> piles[i].Divided())
      && (forall j :: 0 <= j < |homes| ==> homes[j].Divided())
    }

    function Get(id: PileId): Pile
      requires Shaped() && id.Valid()
    {
      match id
      case Deck => deck
      case Tableau(i) => piles[i]
      case Home(j) => homes[j]
    }

    function Set(id: PileId, p: Pile): (r: Board)
      requires Shaped() && id.Valid()
      ensures r.Shaped() && r.Get(id) == p
      ensures forall k: PileId :: k.Valid() && k != id ==> r.Get(k) == Get(k)
    {
      match id
      case Deck => this.(deck := p)
      case Tableau(i) => this.(piles := piles[i := p])
      case Home(j) => this.(homes := homes[j := p])
    }
  }

  /** A board is valid exactly when every pile it names is divided. */
  lemma ValidByPiles(b: Board)
    requires b.Shaped()
    ensures b.Valid() <==> forall id: PileId :: id.Valid() ==> b.Get(id).Divided()
  {
    if forall id: PileId :: id.Valid() ==> b.Get(id).Divided() {
      assert b.Get(Deck).Divided();
      forall i | 0 <= i < 7 ensures b.piles[i].Divided() {
        assert b.Get(Tableau(i)).Divided();
      }
      forall j | 0 <= j < 4 ensures b.homes[j].Divided() {
        assert b.Get(Home(j)).Divided();
      }
    }
  }

  /** Two boards that agree on every pile are the same board. */
  lemma BoardExt(a: Board, b: Board)
    requires a.Shaped() && b.Shaped()
    requires forall id: PileId :: id.Valid() ==> a.Get(id) == b.Get(id)
    ensures a == b
  {
    assert a.Get(Deck) == b.Get(Deck);
    forall i | 0 <= i < 7 ensures a.piles[i] == b.piles[i] {
      assert a.Get(Tableau(i)) == b.Get(Tableau(i));
    }
    forall j | 0 <= j < 4 ensures a.homes[j] == b.homes[j] {
      assert a.Get(Home(j)) == b.Get(Home(j));
    }
  }

  // ---------------------------------------------------------------------
  // Cards on the board

  function SumCards(ps: seq<Pile>): multiset<Card>
  {
    if ps == [] then multiset{} else SumCards(ps[..|ps| - 1]) + multiset(ps[|ps| - 1].cards)
  }

  function SumLen(ps: seq<Pile>): nat
  {
    if ps == [] then 0 else SumLen(ps[..|ps| - 1]) + |ps[|ps| - 1].cards|
  }

  /** Every card on the board, wherever it lies. */
  function CardsOf(b: Board): multiset<Card>
  {
    multiset(b.deck.cards) + SumCards(b.piles) + SumCards(b.homes)
  }

  lemma {:induction false} SumCardsSet(ps: seq<Pile>, i: nat, p: Pile)
    requires i < |ps|
    ensures SumCards(ps[i := p]) + multiset(ps[i].cards) == SumCards(ps) + multiset(p.cards)
  {
    var n := |ps|;
    var q := ps[i := p];
    var front, qfront := ps[..n - 1], q[..n - 1];
    if i == n - 1 {
      assert qfront == front;
      assert SumCards(q) == SumCards(front) + multiset(p.cards);
      assert SumCards(ps) == SumCards(front) + multiset(ps[i].cards);
      Swap(SumCards(front), multiset(p.cards), multiset(ps[i].cards));
    } else {
      var c := multiset(ps[n - 1].cards);
      SetBelowLast(ps, i, p);
      assert SumCards(q) == SumCards(qfront) + c;
      assert SumCards(ps) == SumCards(front) + c;
      SumCardsSet(front, i, p);
      AddMiddle(SumCards(qfront), c, multiset(ps[i].cards), SumCards(front), multiset(p.cards));
    }
  }

  lemma Swap(m: multiset<Card>, x: multiset<Card>, y: multiset<Card>)
    ensures m + x + y == m + y + x
  {
  }

  /** Replacing a pile below the last one of a list leaves the last pile
      and replaces the same pile of the rest. */
  lemma SetBelowLast(ps: seq<Pile>, i: nat, p: Pile)
    requires i + 1 < |ps|
    ensures ps[i := p][..|ps| - 1] == ps[..|ps| - 1][i := p]
    ensures ps[i := p][|ps| - 1] == ps[|ps| - 1] && ps[..|ps| - 1][i] == ps[i]
  {
  }

  lemma {:induction false} SumCardsSameCards(ps: seq<Pile>, qs: seq<Pile>)
    requires |ps| == |qs|
    requires forall i :: 0 <= i < |ps| ==> ps[i].cards == qs[i].cards
    ensures SumCards(ps) == SumCards(qs)
  {
    if ps != [] {
      SumCardsSameCards(ps[..|ps| - 1], qs[..|qs| - 1]);
    }
  }

  lemma {:induction false} SumLenSize(ps: seq<Pile>)
    ensures |SumCards(ps)| == SumLen(ps)
  {
    if ps != [] {
      SumLenSize(ps[..|ps| - 1]);
    }
  }

  lemma {:induction false} SumLenZero(ps: seq<Pile>)
    requires SumLen(ps) == 0
    ensures forall i :: 0 <= i < |ps| ==> ps[i].cards == []
  {
    if ps != [] {
      SumLenZero(ps[..|ps| - 1]);
      assert forall i :: 0 <= i < |ps| - 1 ==> ps[i] == ps[..|ps| - 1][i];
    }
  }

  lemma AddMiddle(m: multiset<Card>, c: multiset<Card>, x: multiset<Card>, n: multiset<Card>, y: multiset<Card>)
    requires m + x == n + y
    ensures m + c + x == n + c + y
  {
    assert m + c + x == (m + x) + c;
    assert n + c + y == (n + y) + c;
  }

  /** Taking `x` off a pile that keeps `p` and adding it to a pile that held
      `d` leaves the board's cards as they were. */
  lemma Handover(c0: multiset<Card>, c1: multiset<Card>, c2: multiset<Card>,
                 p: multiset<Card>, d: multiset<Card>, x: multiset<Card>)
    requires c1 + (p + x) == c0 + p
    requires c2 + d == c1 + (d + x)
    ensures c2 == c0
  {
    forall o ensures c2[o] == c0[o] {
      assert (c1 + (p + x))[o] == (c0 + p)[o];
      assert (c2 + d)[o] == (c1 + (d + x))[o];
    }
  }

  /** As `Handover`, with the card added first and taken away second. */
  lemma HandoverBack(c0: multiset<Card>, c1: multiset<Card>, c2: multiset<Card>,
                     p: multiset<Card>, d: multiset<Card>, x: multiset<Card>)
    requires c1 + d == c0 + (d + x)
    requires c2 + (p + x) == c1 + p
    ensures c2 == c0
  {
    forall o ensures c2[o] == c0[o] {
      assert (c1 + d)[o] == (c0 + (d + x))[o];
      assert (c2 + (p + x))[o] == (c1 + p)[o];
    }
  }

  lemma Exchange(a: multiset<Card>, m: multiset<Card>, c: multiset<Card>, x: multiset<Card>, n: multiset<Card>, y: multiset<Card>)
    requires m + x == n + y
    ensures a + m + c + x == a + n + c + y
  {
    assert a + m + c + x == a + (m + x) + c;
  }

  /** Replacing one pile changes the board's cards by exactly the cards
      of the old and the new pile. */
  lemma SetCards(b: Board, id: PileId, p: Pile)
    requires b.Shaped() && id.Valid()
    ensures CardsOf(b.Set(id, p)) + multiset(b.Get(id).cards) == CardsOf(b) + multiset(p.cards)
  {
    var r := b.Set(id, p);
    var deck, piles, homes := multiset(b.deck.cards), SumCards(b.piles), SumCards(b.homes);
    match id
    case Deck =>
    case Tableau(i) =>
      assert r.deck == b.deck && r.piles == b.piles[i := p] && r.homes == b.homes;
      SumCardsSet(b.piles, i, p);
      var moved := SumCards(b.piles[i := p]);
      assert CardsOf(r) == deck + moved + homes;
      assert moved + multiset(b.piles[i].cards) == piles + multiset(p.cards);
      assert b.Get(id) == b.piles[i];
      Exchange(deck, moved, homes, multiset(b.piles[i].cards), piles, multiset(p.cards));
    case Home(j) =>
      assert r.deck == b.deck && r.piles == b.piles && r.homes == b.homes[j := p];
      SumCardsSet(b.homes, j, p);
      var moved := SumCards(b.homes[j := p]);
      assert CardsOf(r) == deck + piles + moved;
      assert b.Get(id) == b.homes[j];
      Exchange(deck + piles, moved, multiset{}, multiset(b.homes[j].cards), homes, multiset(p.cards));
      assert deck + piles + moved + multiset{} == deck + piles + moved;
      assert deck + piles + homes + multiset{} == deck + piles + homes;
  }

  // ---------------------------------------------------------------------
  // Moving cards between piles

  /** `destination.move_card(source, k)` on a board: pop `source[k]`, then
      append it to `destination` (which may be `source` itself). */
  function MoveCardOn(b: Board, s: PileId, d: PileId, k: nat): (r: Board)
    requires b.Shaped() && s.Valid() && d.Valid() && k < |b.Get(s).cards|
    ensures r.Shaped()
    ensures s != d ==> r.Get(d).cards == b.Get(d).cards + [b.Get(s).cards[k]]
    ensures s != d ==> r.Get(s).cards == b.Get(s).cards[..k] + b.Get(s).cards[k + 1..]
    ensures s == d ==> r.Get(s).cards == b.Get(s).cards[..k] + b.Get(s).cards[k + 1..] + [b.Get(s).cards[k]]
    ensures forall id: PileId :: id.Valid() && id != s && id != d ==> r.Get(id) == b.Get(id)
    ensures forall id: PileId :: id.Valid() ==> r.Get(id).flip == b.Get(id).flip
  {
    var src := b.Get(s);
    var card := src.cards[k];
    var b1 := b.Set(s, Pile(src.cards[..k] + src.cards[k + 1..], src.flip));
    var dst := b1.Get(d);
    b1.Set(d, Pile(dst.cards + [card], dst.flip))
  }

  /** `destination.move_cards(source, k)` on a board: append `source[k:]` to
      `destination`, then cut `source` down to `source[:k]`. */
  function MoveCardsOn(b: Board, s: PileId, d: PileId, k: nat): (r: Board)
    requires b.Shaped() && s.Valid() && d.Valid() && k <= |b.Get(s).cards|
    ensures r.Shaped()
    ensures s != d ==> r.Get(d).cards == b.Get(d).cards + b.Get(s).cards[k..]
    ensures r.Get(s).cards == b.Get(s).cards[..k]
    ensures forall id: PileId :: id.Valid() && id != s && id != d ==> r.Get(id) == b.Get(id)
    ensures forall id: PileId :: id.Valid() ==> r.Get(id).flip == b.Get(id).flip
  {
    var run := b.Get(s).cards[k..];
    var dst := b.Get(d);
    var b1 := b.Set(d, Pile(dst.cards + run, dst.flip));
    var src := b1.Get(s);
    b1.Set(s, Pile(src.cards[..k], src.flip))
  }

  /** The piles other than `s` and `d` are the same on both boards. */
  ghost predicate OthersAgree(a: Board, b: Board, s: PileId, d: PileId)
    requires a.Shaped() && b.Shaped()
  {
    forall id: PileId :: id.Valid() && id != s && id != d ==> a.Get(id) == b.Get(id)
  }

  /** A board whose piles are those `MoveCardOn` describes is its result. */
  lemma MoveCardOnIs(b: Board, s: PileId, d: PileId, k: nat, r: Board)
    requires b.Shaped() && s.Valid() && d.Valid() && k < |b.Get(s).cards| && r.Shaped()
    requires OthersAgree(r, b, s, d)
    requires var cs := b.Get(s).cards;
      s != d ==>
        && r.Get(d) == Pile(b.Get(d).cards + [cs[k]], b.Get(d).flip)
        && r.Get(s) == Pile(cs[..k] + cs[k + 1..], b.Get(s).flip)
    requires var cs := b.Get(s).cards;
      s == d ==> r.Get(s) == Pile(cs[..k] + cs[k + 1..] + [cs[k]], b.Get(s).flip)
    ensures r == MoveCardOn(b, s, d, k)
  {
    BoardExt(r, MoveCardOn(b, s, d, k));
  }

  /** A board whose piles are those `MoveCardsOn` describes is its result. */
  lemma MoveCardsOnIs(b: Board, s: PileId, d: PileId, k: nat, r: Board)
    requires b.Shaped() && s.Valid() && d.Valid() && k <= |b.Get(s).cards| && r.Shaped()
    requires OthersAgree(r, b, s, d)
    requires var cs := b.Get(s).cards;
      s != d ==> r.Get(d) == Pile(b.Get(d).cards + cs[k..], b.Get(d).flip)
    requires r.Get(s) == Pile(b.Get(s).cards[..k], b.Get(s).flip)
    ensures r == MoveCardsOn(b, s, d, k)
  {
    BoardExt(r, MoveCardsOn(b, s, d, k));
  }

  /** Moving one card loses and gains nothing, even within one pile. */
  lemma MoveCardOnConserves(b: Board, s: PileId, d: PileId, k: nat)
    requires b.Shaped() && s.Valid() && d.Valid() && k < |b.Get(s).cards|
    ensures CardsOf(MoveCardOn(b, s, d, k)) == CardsOf(b)
  {
    var src := b.Get(s);
    var cs := src.cards;
    var card := cs[k];
    var popped := Pile(cs[..k] + cs[k + 1..], src.flip);
    var b1 := b.Set(s, popped);
    var dst := b1.Get(d);
    var pushed := Pile(dst.cards + [card], dst.flip);
    assert MoveCardOn(b, s, d, k) == b1.Set(d, pushed);
    assert cs == cs[..k] + [card] + cs[k + 1..];
    assert multiset(cs) == multiset(popped.cards) + multiset{card};
    assert multiset(pushed.cards) == multiset(dst.cards) + multiset{card};
    SetCards(b, s, popped);
    SetCards(b1, d, pushed);
    Handover(CardsOf(b), CardsOf(b1), CardsOf(b1.Set(d, pushed)),
             multiset(popped.cards), multiset(dst.cards), multiset{card});
  }

  /** Moving a run to another pile loses and gains nothing. */
  lemma MoveCardsOnConserves(b: Board, s: PileId, d: PileId, k: nat)
    requires b.Shaped() && s.Valid() && d.Valid() && k <= |b.Get(s).cards| && s != d
    ensures CardsOf(MoveCardsOn(b, s, d, k)) == CardsOf(b)
  {
    var src := b.Get(s);
    var cs := src.cards;
    var dst := b.Get(d);
    var pushed := Pile(dst.cards + cs[k..], dst.flip);
    var b1 := b.Set(d, pushed);
    var cut := Pile(cs[..k], src.flip);
    assert b1.Get(s) == src;
    assert MoveCardsOn(b, s, d, k) == b1.Set(s, cut);
    assert cs == cs[..k] + cs[k..];
    assert multiset(cs) == multiset(cut.cards) + multiset(cs[k..]);
    assert multiset(pushed.cards) == multiset(dst.cards) + multiset(cs[k..]);
    SetCards(b, d, pushed);
    SetCards(b1, s, cut);
    HandoverBack(CardsOf(b), CardsOf(b1), CardsOf(b1.Set(s, cut)),
                 multiset(cut.cards), multiset(dst.cards), multiset(cs[k..]));
  }

  /** Moving a run from a pile onto itself keeps only the cards below the
      run: the copy appended by `extend` is deleted with the original. */
  lemma MoveCardsOntoItself(b: Board, s: PileId, k: nat)
    requires b.Shaped() && s.Valid() && k <= |b.Get(s).cards|
    ensures MoveCardsOn(b, s, s, k).Get(s).cards == b.Get(s).cards[..k]
  {}

  /** `_update`: turn up the top card of every tableau pile. */
  function UpdateAll(b: Board): (r: Board)
    requires b.Shaped()
    ensures r.Shaped()
    ensures r.deck == b.deck && r.homes == b.homes
    ensures forall i :: 0 <= i < 7 ==> r.piles[i] == Updated(b.piles[i])
    ensures forall id: PileId :: id.Valid() ==> r.Get(id) == if id.Tableau? then Updated(b.Get(id)) else b.Get(id)
    ensures forall id: PileId :: id.Valid() ==> r.Get(id).cards == b.Get(id).cards
  {
    b.(piles := seq(7, i requires 0 <= i < 7 => Updated(b.piles[i])))
  }

  /** `_update` keeps every card where it is and keeps the board valid. */
  lemma UpdateAllKeeps(b: Board)
    requires b.Shaped()
    ensures CardsOf(UpdateAll(b)) == CardsOf(b)
    ensures b.Valid() ==> UpdateAll(b).Valid()
  {
    var r := UpdateAll(b);
    forall i | 0 <= i < 7 ensures r.piles[i].cards == b.piles[i].cards {
      assert r.Get(Tableau(i)) == Updated(b.Get(Tableau(i)));
      UpdatedFlipsOnlyTheTop(b.piles[i]);
    }
    SumCardsSameCards(r.piles, b.piles);
    if b.Valid() {
      forall id: PileId | id.Valid() ensures r.Get(id).Divided() {
        UpdatedFlipsOnlyTheTop(b.Get(id));
      }
      ValidByPiles(r);
    }
  }

  // ---------------------------------------------------------------------
  // move_pile

  function Top(p: Pile): Card
    requires |p.cards| > 0
  {
    p.cards[|p.cards| - 1]
  }

  /** The tableau rule: `c` goes onto `onto` when it is one lower and
      `onto`'s suit is listed in `cross_color` for `c`'s suit. */
  predicate Stacks(c: Card, onto: Card)
    ensures Stacks(c, onto) <==> c.value + 1 == onto.value && IsRed(c.suit) != IsRed(onto.suit)
  {
    c.value == onto.value - 1 && onto.suit in CrossColor(c.suit)
  }

  /** The foundation rule: same suit, one higher. */
  predicate Builds(c: Card, onto: Card)
    ensures Builds(c, onto) ==> c != onto && !Stacks(c, onto)
  {
    c.suit == onto.suit && c.value == onto.value + 1
  }

  /** The scan of `get_face_up` in `move_pile`: the lowest index at or
      above `from` whose card stacks onto `onto`. */
  function FirstStacking(cards: seq<Card>, from: nat, onto: Card): (r: Option<nat>)
    decreases |cards| - from
    ensures r.Some? ==> from <= r.value < |cards| && Stacks(cards[r.value], onto)
    ensures r.Some? ==> forall j :: from <= j < r.value ==> !Stacks(cards[j], onto)
    ensures r.None? ==> forall j :: from <= j < |cards| ==> !Stacks(cards[j], onto)
  {
    if from >= |cards| then None
    else if Stacks(cards[from], onto) then Some(from)
    else FirstStacking(cards, from + 1, onto)
  }

  /** What a legal `move_pile` moves: one card popped at an index, or the run
      from an index to the top. */
  datatype Transfer = OneCard(index: nat) | Run(index: nat)

  /** The decision `move_pile(source, destination)` takes, or `None` when it
      reports the move illegal (including the path that returns `None`). */
  function MovePilePlan(b: Board, s: PileId, d: PileId): (r: Option<Transfer>)
    requires b.Valid() && s.Valid() && d.Valid()
    ensures r.Some? ==> b.Get(s).flip < |b.Get(s).cards| && r.value.index < |b.Get(s).cards|
    ensures r.Some? && r.value.Run? ==> b.Get(s).flip <= r.value.index
  {
    var src := b.Get(s);
    var dst := b.Get(d);
    if src.flip == |src.cards| then None
    else if |dst.cards| > 0 then
      var top := Top(dst);
      if s == Deck || d.Home? then
        var card := if s == Deck then src.cards[src.flip] else Top(src);
        if (d.Home? && Builds(card, top)) || (!d.Home? && Stacks(card, top))
        then Some(OneCard(FirstIndex(src.cards, card)))
        else None
      else
        match FirstStacking(src.cards, src.flip, top)
        case Some(i) => Some(Run(i))
        case None => None
    else
      var k := if d.Home? && s != Deck then |src.cards| - 1 else src.flip;
      var card := src.cards[k];
      if (d.Tableau? && card.value == 13) || (d.Home? && card.value == 1) then
        Some(if s == Deck || d.Home? then OneCard(k) else Run(k))
      else None
  }

  /** `move_pile(source, destination, move=False)`. */
  predicate CanMovePile(b: Board, s: PileId, d: PileId)
    requires b.Valid() && s.Valid() && d.Valid()
    ensures CanMovePile(b, s, d) ==> b.Get(s).flip < |b.Get(s).cards|
  {
    MovePilePlan(b, s, d).Some?
  }

  /** The board after `move_pile(source, destination)`. */
  function MovePileResult(b: Board, s: PileId, d: PileId): (r: Board)
    requires b.Valid() && s.Valid() && d.Valid()
    ensures r.Shaped()
  {
    match MovePilePlan(b, s, d)
    case None => b
    case Some(OneCard(k)) => UpdateAll(MoveCardOn(b, s, d, k))
    case Some(Run(k)) => UpdateAll(MoveCardsOn(b, s, d, k))
  }

  /** A source without a face-up card moves nothing. */
  lemma MovePileNeedsFaceUp(b: Board, s: PileId, d: PileId)
    requires b.Valid() && s.Valid() && d.Valid()
    requires b.Get(s).flip == |b.Get(s).cards|
    ensures !CanMovePile(b, s, d) && MovePileResult(b, s, d) == b
  {}

  /** Onto a non-empty pile that is not a foundation, the waste card
      `deck[flip]` moves alone, exactly when it is one lower than the top
      card and of the other colour. */
  lemma MovePileFromWaste(b: Board, d: PileId)
    requires b.Valid() && d.Valid() && !d.Home? && |b.Get(d).cards| > 0
    requires b.deck.flip < |b.deck.cards|
    ensures CanMovePile(b, Deck, d) <==> Stacks(b.deck.cards[b.deck.flip], Top(b.Get(d)))
    ensures CanMovePile(b, Deck, d) ==> MovePilePlan(b, Deck, d).value.OneCard?
    ensures CanMovePile(b, Deck, d) ==>
      b.deck.cards[MovePilePlan(b, Deck, d).value.index] == b.deck.cards[b.deck.flip]
  {}

  /** From a tableau pile (or a foundation) onto a non-empty pile that is not a
      foundation, the move is legal exactly when some face-up card is one lower
      than the top card and of the other colour; the run from the lowest such
      card to the top is what moves. */
  lemma MovePileRunRule(b: Board, s: PileId, d: PileId)
    requires b.Valid() && s.Valid() && d.Valid() && s != Deck && !d.Home? && |b.Get(d).cards| > 0
    ensures CanMovePile(b, s, d) <==>
      exists i :: b.Get(s).flip <= i < |b.Get(s).cards| && Stacks(b.Get(s).cards[i], Top(b.Get(d)))
    ensures CanMovePile(b, s, d) ==>
      var t := MovePilePlan(b, s, d).value;
      && t.Run?
      && b.Get(s).flip <= t.index
      && Stacks(b.Get(s).cards[t.index], Top(b.Get(d)))
      && forall j :: b.Get(s).flip <= j < t.index ==> !Stacks(b.Get(s).cards[j], Top(b.Get(d)))
  {
    var src := b.Get(s);
    var top := Top(b.Get(d));
    if src.flip < |src.cards| {
      var f := FirstStacking(src.cards, src.flip, top);
      if f.Some? {
        assert src.flip <= f.value < |src.cards| && Stacks(src.cards[f.value], top);
      }
    }
  }

  /** Onto a non-empty foundation, `move_pile` moves the source's top card
      (the waste card for the draw pile) when it has the top's suit and is one
      higher. */
  lemma MovePileOntoFoundation(b: Board, s: PileId, j: nat)
    requires b.Valid() && s.Valid() && j < 4 && |b.homes[j].cards| > 0
    requires b.Get(s).flip < |b.Get(s).cards|
    ensures var src := b.Get(s);
      var card := if s == Deck then src.cards[src.flip] else Top(src);
      && (CanMovePile(b, s, Home(j)) <==> Builds(card, Top(b.homes[j])))
      && (CanMovePile(b, s, Home(j)) ==> MovePilePlan(b, s, Home(j)) == Some(OneCard(FirstIndex(src.cards, card))))
  {}

  /** Onto an empty tableau pile only a King moves: the waste card alone, or
      the whole face-up run whose bottom card is the King. Onto an empty
      foundation only an Ace moves: the source's top card, or the waste card.
      Nothing moves onto an empty draw pile. */
  lemma MovePileOntoEmpty(b: Board, s: PileId, d: PileId)
    requires b.Valid() && s.Valid() && d.Valid() && b.Get(d).cards == []
    requires b.Get(s).flip < |b.Get(s).cards|
    ensures var src := b.Get(s);
      d.Tableau? ==>
        && (CanMovePile(b, s, d) <==> src.cards[src.flip].value == 13)
        && (CanMovePile(b, s, d) ==>
              MovePilePlan(b, s, d) == Some(if s == Deck then OneCard(src.flip) else Run(src.flip)))
    ensures var src := b.Get(s);
      var k := if s == Deck then src.flip else |src.cards| - 1;
      d.Home? ==>
        && (CanMovePile(b, s, d) <==> src.cards[k].value == 1)
        && (CanMovePile(b, s, d) ==> MovePilePlan(b, s, d) == Some(OneCard(k)))
    ensures d == Deck ==> !CanMovePile(b, s, d)
  {}

  lemma MoveCardOnValid(b: Board, s: PileId, d: PileId, k: nat)
    requires b.Valid() && s.Valid() && d.Valid() && k < |b.Get(s).cards| && b.Get(s).flip < |b.Get(s).cards|
    ensures MoveCardOn(b, s, d, k).Valid()
  {
    var m := MoveCardOn(b, s, d, k);
    forall id: PileId | id.Valid() ensures m.Get(id).Divided() {
      assert b.Get(id).Divided();
    }
    ValidByPiles(m);
  }

  lemma MoveCardsOnValid(b: Board, s: PileId, d: PileId, k: nat)
    requires b.Valid() && s.Valid() && d.Valid() && b.Get(s).flip <= k <= |b.Get(s).cards|
    ensures MoveCardsOn(b, s, d, k).Valid()
  {
    var m := MoveCardsOn(b, s, d, k);
    forall id: PileId | id.Valid() ensures m.Get(id).Divided() {
      assert b.Get(id).Divided();
    }
    ValidByPiles(m);
  }

  /** A legal `move_pile` between two different piles changes only those
      two piles' cards (tableau tops are turned up afterwards): one card
      leaves the source for the top of the destination, or the run from the
      chosen face-up card to the top moves intact and in order. */
  lemma MovePileEffect(b: Board, s: PileId, d: PileId)
    requires b.Valid() && s.Valid() && d.Valid() && CanMovePile(b, s, d) && s != d
    ensures var r := MovePileResult(b, s, d);
      var src := b.Get(s);
      var dst := b.Get(d);
      var t := MovePilePlan(b, s, d).value;
      && src.flip < |src.cards| && t.index < |src.cards|
      && (t.OneCard? ==>
            && r.Get(d).cards == dst.cards + [src.cards[t.index]]
            && r.Get(s).cards == src.cards[..t.index] + src.cards[t.index + 1..])
      && (t.Run? ==>
            && src.flip <= t.index
            && r.Get(d).cards == dst.cards + src.cards[t.index..]
            && r.Get(s).cards == src.cards[..t.index])
    ensures forall id: PileId :: id.Valid() && id != s && id != d ==> MovePileResult(b, s, d).Get(id).cards == b.Get(id).cards
  {}

  /** Whether or not it is legal, `move_pile` keeps the board valid and,
      unless it moves a run onto its own pile, keeps every card on the board. */
  lemma MovePileKeepsValid(b: Board, s: PileId, d: PileId)
    requires b.Valid() && s.Valid() && d.Valid()
    ensures MovePileResult(b, s, d).Valid()
    ensures (s != d || !MovePilePlan(b, s, d).Some? || MovePilePlan(b, s, d).value.OneCard?) ==>
      CardsOf(MovePileResult(b, s, d)) == CardsOf(b)
  {
    match MovePilePlan(b, s, d)
    case None =>
    case Some(OneCard(k)) =>
      MoveCardOnValid(b, s, d, k);
      MoveCardOnConserves(b, s, d, k);
      UpdateAllKeeps(MoveCardOn(b, s, d, k));
    case Some(Run(k)) =>
      MoveCardsOnValid(b, s, d, k);
      if s != d {
        MoveCardsOnConserves(b, s, d, k);
      }
      UpdateAllKeeps(MoveCardsOn(b, s, d, k));
  }

  /** A board on which a run can be moved onto its own pile: tableau pile 0
      holds 2 of Hearts, Ace, 2 and 3 of Spades, all face up (the result of
      moving a Spade foundation of A, 2, 3 onto a 2 of Hearts); every other
      pile is empty. */
  const OwnPileBoard: Board :=
    Board(EmptyPile,
          [Pile([Card(2, Heart), Card(1, Spade), Card(2, Spade), Card(3, Spade)], 0),
           EmptyPile, EmptyPile, EmptyPile, EmptyPile, EmptyPile, EmptyPile],
          NoHomes)

  /** The seven piles of a board with no cards on the tableau. */
  const NoPiles: seq<Pile> := [EmptyPile, EmptyPile, EmptyPile, EmptyPile, EmptyPile, EmptyPile, EmptyPile]

  /** As written, `move_pile(piles[0], piles[0])` is legal on that board:
      the 2 of Hearts is one lower than the top 3 of Spades and of the other
      colour, so the run from it is moved. */
  lemma OwnPileRunLegal()
    ensures OwnPileBoard.Valid() && CanMovePile(OwnPileBoard, Tableau(0), Tableau(0))
    ensures MovePilePlan(OwnPileBoard, Tableau(0), Tableau(0)) == Some(Run(0))
  {}

  /** The cards of that board are the four of its first pile. */
  lemma OwnPileBoardCards()
    ensures CardsOf(OwnPileBoard) == multiset(OwnPileBoard.piles[0].cards)
  {
    var b := OwnPileBoard;
    var p := b.piles[0];
    SumCardsEmpty(NoPiles);
    SumCardsEmpty(NoHomes);
    SumCardsSet(NoPiles, 0, p);
    var q := NoPiles[0 := p];
    assert SumCards(q) + multiset{} == SumCards(q);
    assert b.piles == q;
  }

  /** A board with every pile empty holds no card. */
  lemma EmptyBoardCards()
    ensures CardsOf(Board(EmptyPile, NoPiles, NoHomes)) == multiset{}
  {
    SumCardsEmpty(NoPiles);
    SumCardsEmpty(NoHomes);
  }

  /** Extending the pile with its own run and then cutting the run off
      empties it: the four cards on the board before the move all leave it. */
  lemma OwnPileRunLosesCards()
    ensures OwnPileBoard.Valid() && CanMovePile(OwnPileBoard, Tableau(0), Tableau(0))
    ensures |CardsOf(OwnPileBoard)| == 4
    ensures CardsOf(MovePileResult(OwnPileBoard, Tableau(0), Tableau(0))) == multiset{}
  {
    var b := OwnPileBoard;
    OwnPileRunLegal();
    var empty := Board(EmptyPile, NoPiles, NoHomes);
    var m := MoveCardsOn(b, Tableau(0), Tableau(0), 0);
    assert m.piles == NoPiles;
    assert m == empty;
    assert UpdateAll(empty).piles == NoPiles;
    assert MovePileResult(b, Tableau(0), Tableau(0)) == empty;
    EmptyBoardCards();
    OwnPileBoardCards();
  }

  /** `move_pile` with a pile never moved onto itself, as the game evidently
      intends: the own-pile pair is refused and leaves the board alone, and
      every other pair moves as written. Whatever the pair, every card stays
      on the board and every pile stays divided. */
  function MovePileChecked(b: Board, s: PileId, d: PileId): (r: Board)
    requires b.Valid() && s.Valid() && d.Valid()
    ensures r.Valid() && CardsOf(r) == CardsOf(b)
    ensures s == d ==> r == b
    ensures s != d ==> r == MovePileResult(b, s, d)
  {
    if s == d then b
    else
      MovePileKeepsValid(b, s, d);
      MovePileResult(b, s, d)
  }

  // ---------------------------------------------------------------------
  // move_home

  predicate HasBottomSuit(p: Pile, suit: Suit)
  {
    |p.cards| > 0 && p.cards[0].suit == suit
  }

  /** The first foundation at or after `from` whose bottom card has `suit`. */
  function HomeWithSuit(homes: seq<Pile>, suit: Suit, from: nat): (r: Option<nat>)
    decreases |homes| - from
    ensures r.Some? ==> from <= r.value < |homes| && HasBottomSuit(homes[r.value], suit)
    ensures r.Some? ==> forall j :: from <= j < r.value ==> !HasBottomSuit(homes[j], suit)
    ensures r.None? ==> forall j :: from <= j < |homes| ==> !HasBottomSuit(homes[j], suit)
  {
    if from >= |homes| then None
    else if HasBottomSuit(homes[from], suit) then Some(from)
    else HomeWithSuit(homes, suit, from + 1)
  }

  /** The first empty foundation at or after `from`. */
  function FirstEmptyHome(homes: seq<Pile>, from: nat): (r: Option<nat>)
    decreases |homes| - from
    ensures r.Some? ==> from <= r.value < |homes| && homes[r.value].cards == []
    ensures r.Some? ==> forall j :: from <= j < r.value ==> homes[j].cards != []
    ensures r.None? ==> forall j :: from <= j < |homes| ==> homes[j].cards != []
  {
    if from >= |homes| then None
    else if homes[from].cards == [] then Some(from)
    else FirstEmptyHome(homes, from + 1)
  }

  /** The foundation `move_home` chooses for a card of `suit`. */
  function HomeTarget(homes: seq<Pile>, suit: Suit): (r: Option<nat>)
    ensures r.Some? ==> r.value < |homes| && (homes[r.value].cards == [] || HasBottomSuit(homes[r.value], suit))
  {
    match HomeWithSuit(homes, suit, 0)
    case Some(j) => Some(j)
    case None => FirstEmptyHome(homes, 0)
  }

  /** The chosen foundation is the first one whose bottom card has the suit;
      failing that, the first empty one; there is none only when every
      foundation is non-empty with a bottom card of another suit. */
  lemma HomeTargetChoice(homes: seq<Pile>, suit: Suit)
    ensures var t := HomeTarget(homes, suit);
      && (t.Some? ==> t.value < |homes|)
      && (t.Some? && homes[t.value].cards != [] ==>
            HasBottomSuit(homes[t.value], suit) && forall j :: 0 <= j < t.value ==> !HasBottomSuit(homes[j], suit))
      && (t.Some? && homes[t.value].cards == [] ==>
            (forall j :: 0 <= j < |homes| ==> !HasBottomSuit(homes[j], suit)) &&
            forall j :: 0 <= j < t.value ==> homes[j].cards != [])
      && (t.None? <==> forall j :: 0 <= j < |homes| ==> homes[j].cards != [] && !HasBottomSuit(homes[j], suit))
  {
    var w := HomeWithSuit(homes, suit, 0);
    var e := FirstEmptyHome(homes, 0);
    if w.None? && e.Some? {
      assert homes[e.value].cards == [];
    }
  }

  /** `move_home` raises `TypeError` (`len(None)`) when no foundation fits. */
  datatype EngineError = NoFoundation

  /** What a legal `move_home` does: pop the card at `index` of the source and
      append it to foundation `home`. */
  datatype HomeMove = HomeMove(home: nat, index: nat)

  /** The decision `move_home(source)` takes. */
  function MoveHomePlan(b: Board, s: PileId): (r: Result<Option<HomeMove>, EngineError>)
    requires b.Valid() && s.Valid()
    ensures r.Ok? && r.value.Some? ==> r.value.value.home < 4 && r.value.value.index < |b.Get(s).cards|
  {
    var src := b.Get(s);
    if src.flip == |src.cards| then Ok(None)
    else
      var k := if s == Deck then src.flip else |src.cards| - 1;
      var card := src.cards[k];
      match HomeTarget(b.homes, card.suit)
      case None => Err(NoFoundation)
      case Some(j) =>
        var target := b.homes[j];
        if (|target.cards| == 0 && card.value == 1) || (|target.cards| > 0 && card.value == Top(target).value + 1)
        then Ok(Some(HomeMove(j, k)))
        else Ok(None)
  }

  /** `move_home(source, move=False)`. */
  function MoveHomeVerdict(b: Board, s: PileId): (r: Result<bool, EngineError>)
    requires b.Valid() && s.Valid()
    ensures r == Ok(true) ==> b.Get(s).flip < |b.Get(s).cards|
    ensures r.Err? ==> b.Get(s).flip < |b.Get(s).cards| && HomeTarget(b.homes, b.Get(s).cards[if s == Deck then b.Get(s).flip else |b.Get(s).cards| - 1].suit).None?
  {
    match MoveHomePlan(b, s)
    case Err(e) => Err(e)
    case Ok(p) => Ok(p.Some?)
  }

  /** The board after `move_home(source)`. */
  function MoveHomeResult(b: Board, s: PileId): (r: Board)
    requires b.Valid() && s.Valid()
    ensures r.Shaped()
  {
    match MoveHomePlan(b, s)
    case Ok(Some(HomeMove(j, k))) => UpdateAll(MoveCardOn(b, s, Home(j), k))
    case _ => b
  }

  /** `move_home` is legal exactly when the source shows a face-up card (the
      waste card `deck[flip]`, otherwise the top card) and the chosen
      foundation is empty and the card an Ace, or holds that suit and the card
      is one higher than its top. */
  lemma MoveHomeRule(b: Board, s: PileId)
    requires b.Valid() && s.Valid()
    ensures var src := b.Get(s);
      src.flip == |src.cards| ==> MoveHomePlan(b, s) == Ok(None)
    ensures var src := b.Get(s);
      src.flip < |src.cards| ==>
        var k := if s == Deck then src.flip else |src.cards| - 1;
        var card := src.cards[k];
        var t := HomeTarget(b.homes, card.suit);
        && (t.None? <==> MoveHomePlan(b, s).Err?)
        && (t.Some? ==>
              var target := b.homes[t.value];
              && (MoveHomeVerdict(b, s) == Ok(true) <==>
                    (target.cards == [] && card.value == 1) ||
                    (target.cards != [] && HasBottomSuit(target, card.suit) && card.value == Top(target).value + 1))
              && (MoveHomeVerdict(b, s) == Ok(true) ==> MoveHomePlan(b, s) == Ok(Some(HomeMove(t.value, k)))))
  {
    var src := b.Get(s);
    if src.flip < |src.cards| {
      var k := if s == Deck then src.flip else |src.cards| - 1;
      HomeTargetChoice(b.homes, src.cards[k].suit);
    }
  }

  /** A legal `move_home` never targets its own source: a foundation's top
      card is never one higher than itself. */
  lemma MoveHomeNotOntoItself(b: Board, s: PileId)
    requires b.Valid() && s.Valid()
    requires MoveHomeVerdict(b, s) == Ok(true)
    ensures s != Home(MoveHomePlan(b, s).value.value.home)
  {
    var HomeMove(j, k) := MoveHomePlan(b, s).value.value;
    var src := b.Get(s);
    assert s.Home? ==> k == |src.cards| - 1;
    assert b.homes[j].cards != [] ==> src.cards[k].value == Top(b.homes[j]).value + 1;
  }

  /** A legal `move_home` takes exactly that one card off the source and puts
      it on top of the chosen foundation; every other pile keeps its cards. */
  lemma MoveHomeEffect(b: Board, s: PileId)
    requires b.Valid() && s.Valid()
    requires MoveHomeVerdict(b, s) == Ok(true)
    ensures var HomeMove(j, k) := MoveHomePlan(b, s).value.value;
      var r := MoveHomeResult(b, s);
      var src := b.Get(s);
      && r.homes[j].cards == b.homes[j].cards + [src.cards[k]]
      && r.Get(s).cards == src.cards[..k] + src.cards[k + 1..]
      && (forall id: PileId :: id.Valid() && id != s && id != Home(j) ==> r.Get(id).cards == b.Get(id).cards)
  {
    MoveHomeNotOntoItself(b, s);
    var HomeMove(j, k) := MoveHomePlan(b, s).value.value;
    var r := MoveHomeResult(b, s);
    assert r.homes[j] == r.Get(Home(j));
  }

  /** Whether or not it is legal, `move_home` keeps the board valid and
      every card on it. */
  lemma MoveHomeKeepsValid(b: Board, s: PileId)
    requires b.Valid() && s.Valid()
    ensures CardsOf(MoveHomeResult(b, s)) == CardsOf(b)
    ensures MoveHomeResult(b, s).Valid()
  {
    var p := MoveHomePlan(b, s);
    if p.Ok? && p.value.Some? {
      var j, k := p.value.value.home, p.value.value.index;
      var m := MoveCardOn(b, s, Home(j), k);
      assert MoveHomeResult(b, s) == UpdateAll(m);
      assert b.Get(s).flip < |b.Get(s).cards|;
      MoveCardOnValid(b, s, Home(j), k);
      MoveCardOnConserves(b, s, Home(j), k);
      UpdateAllKeeps(m);
    } else {
      assert MoveHomeResult(b, s) == b;
    }
  }

  /** `move_home` leaves the board as it was unless it is legal. */
  lemma MoveHomeUnchangedUnlessLegal(b: Board, s: PileId)
    requires b.Valid() && s.Valid()
    requires MoveHomeVerdict(b, s) != Ok(true)
    ensures MoveHomeResult(b, s) == b
  {}

  // ---------------------------------------------------------------------
  // deal and check_win

  /** The divider of the draw pile after `deal(amount)`. */
  function DealtFlip(flip: int, size: nat, amount: int): (r: int)
    ensures 0 <= flip <= size && amount >= 0 ==> 0 <= r <= size
    ensures 0 < flip && amount >= 0 ==> r <= flip
  {
    if flip == 0 then size
    else if flip - amount < 0 then 0
    else flip - amount
  }

  /** The board after `deal(amount)`: only the draw pile's divider moves. */
  function DealBoard(b: Board, amount: int): (r: Board)
    requires b.Shaped()
    ensures r.Shaped()
  {
    b.(deck := Pile(b.deck.cards, DealtFlip(b.deck.flip, |b.deck.cards|, amount)))
  }

  /** `deal` moves and reorders no card: it resets an exhausted draw pile to
      all face down, and otherwise turns up at most `amount` more cards,
      stopping at the bottom. */
  lemma DealRule(b: Board, amount: int)
    requires b.Valid() && amount >= 0
    ensures var r := DealBoard(b, amount);
      && r.Valid()
      && r.deck.cards == b.deck.cards
      && r.piles == b.piles && r.homes == b.homes
      && (b.deck.flip == 0 ==> r.deck.flip == |b.deck.cards|)
      && (b.deck.flip != 0 ==> r.deck.flip == (if b.deck.flip < amount then 0 else b.deck.flip - amount))
      && CardsOf(r) == CardsOf(b)
  {}

  /** The draw pile after `n` calls of `deal(amount)`. */
  function DealRepeated(p: Pile, amount: int, n: nat): Pile
  {
    if n == 0 then p else
      var q := DealRepeated(p, amount, n - 1);
      Pile(q.cards, DealtFlip(q.flip, |q.cards|, amount))
  }

  /** While the draw pile still has face-down cards, each deal turns up
      `amount` more, so `n` deals leave `flip - n * amount` of them, or none. */
  lemma {:induction false} DealCountdown(cards: seq<Card>, flip: int, amount: int, n: nat)
    requires amount > 0 && flip > 0 && (n - 1) * amount < flip
    ensures DealRepeated(Pile(cards, flip), amount, n) ==
      Pile(cards, if flip - n * amount < 0 then 0 else flip - n * amount)
  {
    if n > 0 {
      DealCountdown(cards, flip, amount, n - 1);
      assert (n - 1) * amount == n * amount - amount;
      assert (n - 2) * amount == (n - 1) * amount - amount;
    }
  }

  /** From 24 face-down cards, eight deals of three turn them all up and the
      ninth turns them all back down, in the same order. */
  lemma DealCycle(cards: seq<Card>)
    requires |cards| == 24
    ensures DealRepeated(Pile(cards, 24), 3, 8) == Pile(cards, 0)
    ensures DealRepeated(Pile(cards, 24), 3, 9) == Pile(cards, 24)
  {
    DealCountdown(cards, 24, 3, 8);
  }

  /** The cards of four piles, counted one pile at a time. */
  lemma SumLenFour(hs: seq<Pile>)
    requires |hs| == 4
    ensures SumLen(hs) == |hs[0].cards| + |hs[1].cards| + |hs[2].cards| + |hs[3].cards|
  {
    assert hs[..4] == hs;
    assert SumLen(hs) == SumLen(hs[..3]) + |hs[3].cards|;
    assert hs[..3][..2] == hs[..2];
    assert SumLen(hs[..3]) == SumLen(hs[..2]) + |hs[2].cards|;
    assert hs[..2][..1] == hs[..1];
    assert SumLen(hs[..2]) == SumLen(hs[..1]) + |hs[1].cards|;
    assert hs[..1][..0] == [];
    assert SumLen(hs[..1]) == |hs[0].cards|;
  }

  /** `check_win`. */
  predicate HasWon(b: Board)
    requires b.Shaped()
    ensures HasWon(b) ==> SumLen(b.homes) == 52
  {
    SumLenFour(b.homes);
    forall j :: 0 <= j < 4 ==> |b.homes[j].cards| == 13
  }

  /** A board of 52 cards is won exactly when all of them are on the
      foundations, thirteen each: the draw pile and the tableau are empty. */
  lemma WonMeansAllHome(b: Board)
    requires b.Shaped() && |CardsOf(b)| == 52 && HasWon(b)
    ensures b.deck.cards == []
    ensures forall i :: 0 <= i < 7 ==> b.piles[i].cards == []
  {
    var h := b.homes;
    assert SumLen(h[..1]) == 13 by {
      assert h[..1][..0] == [];
    }
    assert SumLen(h[..2]) == 26 by {
      assert h[..2][..1] == h[..1];
    }
    assert SumLen(h[..3]) == 39 by {
      assert h[..3][..2] == h[..2];
    }
    assert SumLen(h) == 52 by {
      assert h[..4] == h;
    }
    SumLenSize(b.piles);
    SumLenSize(b.homes);
    assert SumLen(b.piles) == 0;
    SumLenZero(b.piles);
  }

  // ---------------------------------------------------------------------
  // A new game

  /** The tableau piles of sizes `from + 1` up to `to`, dealt in turn off
      the end of `deck` as `CardPile(deck, i + 1)` does for each `i`. */
  function TableauPiles(deck: seq<Card>, from: nat, to: nat): (ps: seq<Pile>)
    decreases to - from
    ensures |ps| == if from <= to then to - from else 0
  {
    if from >= to then []
    else [DealPile(deck, from + 1).0] + TableauPiles(DealPile(deck, from + 1).1, from + 1, to)
  }

  /** What is left of `deck` after dealing those piles. */
  function TableauRest(deck: seq<Card>, from: nat, to: nat): seq<Card>
    decreases to - from
  {
    if from >= to then deck else TableauRest(DealPile(deck, from + 1).1, from + 1, to)
  }

  /** Dealing the piles one at a time: pile `n` is dealt from what the
      earlier piles left, and leaves the rest for the later ones. */
  lemma {:induction false} TableauStep(deck: seq<Card>, from: nat, n: nat, to: nat)
    requires from <= n < to
    decreases n - from
    ensures TableauRest(deck, from, n + 1) == DealPile(TableauRest(deck, from, n), n + 1).1
    ensures TableauPiles(deck, from, to)[n - from] == DealPile(TableauRest(deck, from, n), n + 1).0
  {
    var d := DealPile(deck, from + 1);
    if from < n {
      TableauStep(d.1, from + 1, n, to);
      assert TableauPiles(deck, from, to)[n - from] == TableauPiles(d.1, from + 1, to)[n - (from + 1)];
    } else {
      assert TableauRest(d.1, from + 1, from + 1) == d.1;
    }
  }

  /** 1 + 2 + ... + n, the cards the first n tableau piles take. */
  function Triangle(n: nat): (r: nat)
    ensures n <= r && (n <= 7 ==> r <= 7 * n)
  {
    if n == 0 then 0 else Triangle(n - 1) + n
  }

  lemma {:induction false} TriangleGrows(m: nat, n: nat)
    requires m <= n
    decreases n - m
    ensures Triangle(m) <= Triangle(n)
  {
    if m < n {
      TriangleGrows(m, n - 1);
    }
  }

  /** Dealing piles of `from + 1` up to `to` cards from a deck big enough
      leaves the deck with exactly the cards below them. */
  lemma {:induction false} TableauRestShape(deck: seq<Card>, from: nat, to: nat)
    decreases to - from
    requires from <= to && Triangle(from) <= Triangle(to) <= |deck| + Triangle(from)
    ensures TableauRest(deck, from, to) == deck[..|deck| - (Triangle(to) - Triangle(from))]
  {
    if from < to {
      var d := DealPile(deck, from + 1);
      var n := |deck|;
      assert Triangle(from + 1) == Triangle(from) + from + 1;
      TriangleGrows(from + 1, to);
      assert d.1 == deck[..n - (from + 1)];
      TableauRestShape(d.1, from + 1, to);
      assert d.1[..|d.1| - (Triangle(to) - Triangle(from + 1))] == deck[..n - (Triangle(to) - Triangle(from))];
    } else {
      assert deck[..|deck|] == deck;
    }
  }

  lemma {:induction false} SumCardsCons(p: Pile, ps: seq<Pile>)
    ensures SumCards([p] + ps) == multiset(p.cards) + SumCards(ps)
  {
    if ps != [] {
      var n := |ps|;
      SumCardsCons(p, ps[..n - 1]);
      assert ([p] + ps)[..n] == [p] + ps[..n - 1];
      assert ([p] + ps)[n] == ps[n - 1];
      assert SumCards([p] + ps) == SumCards([p] + ps[..n - 1]) + multiset(ps[n - 1].cards);
      assert SumCards(ps) == SumCards(ps[..n - 1]) + multiset(ps[n - 1].cards);
    } else {
      assert ([p] + ps)[..0] == [];
    }
  }

  /** Dealing the tableau loses no card. */
  lemma {:induction false} TableauConserves(deck: seq<Card>, from: nat, to: nat)
    decreases to - from
    ensures SumCards(TableauPiles(deck, from, to)) + multiset(TableauRest(deck, from, to)) == multiset(deck)
  {
    if from < to {
      var d := DealPile(deck, from + 1);
      TableauConserves(d.1, from + 1, to);
      DealPileConserves(deck, from + 1);
      SumCardsCons(d.0, TableauPiles(d.1, from + 1, to));
      Chain(multiset(d.0.cards), SumCards(TableauPiles(d.1, from + 1, to)), SumCards(TableauPiles(deck, from, to)),
            multiset(TableauRest(deck, from, to)), multiset(d.1), multiset(deck));
    }
  }

  lemma Chain(a: multiset<Card>, b: multiset<Card>, ab: multiset<Card>, c: multiset<Card>, r: multiset<Card>, d: multiset<Card>)
    requires a + r == d && b + c == r && ab == a + b
    ensures ab + c == d
  {
    forall o ensures (ab + c)[o] == d[o] {
      assert (a + r)[o] == d[o];
      assert (b + c)[o] == r[o];
      assert ab[o] == (a + b)[o];
    }
  }

  lemma Regroup(x: multiset<Card>, y: multiset<Card>, z: multiset<Card>, total: multiset<Card>)
    requires y + x == total && z == multiset{}
    ensures x + y + z == total
  {
    forall o ensures (x + y + z)[o] == total[o] {
      assert (y + x)[o] == total[o];
    }
  }

  const NoHomes: seq<Pile> := [EmptyPile, EmptyPile, EmptyPile, EmptyPile]

  /** `Solitaire()` with the shuffled deck `order`: tableau piles of 1..7
      cards, the rest in the draw pile, four empty foundations, then the top
      card of every tableau pile turned up. */
  function InitialBoard(order: seq<Card>): (b: Board)
    ensures b.Shaped()
  {
    var deck := DealPile(TableauRest(order, 0, 7), 0).0;
    UpdateAll(Board(deck, TableauPiles(order, 0, 7), NoHomes))
  }

  /** Tableau pile `i` of a new game: `i + 1` cards with only the top one
      face up, the bottom one the card dealt first for it, after the
      1 + ... + i cards of the piles before it. */
  lemma InitialPile(order: seq<Card>, i: nat)
    requires |order| == 52 && i < 7
    ensures var p := InitialBoard(order).piles[i];
      |p.cards| == i + 1 && p.flip == i && p.cards[0] == order[51 - Triangle(i)]
  {
    var rest := TableauPileFrom(order, i);
    var ps := TableauPiles(order, 0, 7);
    var p := InitialBoard(order).piles[i];
    assert p == Updated(ps[i]);
    UpdatedFlipsOnlyTheTop(ps[i]);
    assert p.cards == Dealt(rest, i + 1) && p.flip == i;
    assert p.cards[0] == rest[|rest| - 1];
  }

  /** Pile `i` of the tableau is dealt, `i + 1` cards, from what the piles
      before it left of the 52 cards: all but the last 1 + ... + i. */
  lemma TableauPileFrom(order: seq<Card>, i: nat) returns (rest: seq<Card>)
    requires |order| == 52 && i < 7
    ensures rest == order[..52 - Triangle(i)]
    ensures TableauPiles(order, 0, 7)[i] == Pile(Dealt(rest, i + 1), i + 1)
  {
    TableauStep(order, 0, i, 7);
    TableauRestShape(order, 0, i);
    rest := TableauRest(order, 0, i);
    DealEnough(rest, i + 1);
  }

  /** Dealing `k` cards off a deck that has them gives the last `k` cards,
      all face down. */
  lemma DealEnough(deck: seq<Card>, k: nat)
    requires 1 <= k <= |deck|
    ensures DealPile(deck, k).0 == Pile(Dealt(deck, k), k)
  {
  }

  /** From any order of the 52 cards, a new game has tableau piles of 1 to 7
      cards with exactly one face-up card each. */
  lemma InitialTableau(order: seq<Card>)
    requires |order| == 52
    ensures forall i :: 0 <= i < 7 ==>
      |InitialBoard(order).piles[i].cards| == i + 1 && InitialBoard(order).piles[i].flip == i
  {
    forall i | 0 <= i < 7 {
      InitialPile(order, i);
    }
  }

  /** Turning up the tableau of a new game leaves the draw pile and the
      foundations as they were dealt. */
  lemma InitialUntouched(order: seq<Card>)
    requires |order| == 52
    ensures InitialBoard(order).deck == DealPile(order[..24], 0).0
    ensures InitialBoard(order).homes == NoHomes
  {
    InitialRest(order);
    var deck := DealPile(TableauRest(order, 0, 7), 0).0;
    var b0 := Board(deck, TableauPiles(order, 0, 7), NoHomes);
    var b := InitialBoard(order);
    assert b.Get(Deck) == b0.Get(Deck);
    forall j | 0 <= j < 4 ensures b.homes[j] == NoHomes[j] {
      assert b.Get(Home(j)) == b0.Get(Home(j));
    }
  }

  /** Dealing the seven tableau piles takes 28 cards off the end of a deck
      of 52 and leaves the first 24. */
  lemma InitialRest(order: seq<Card>)
    requires |order| == 52
    ensures TableauRest(order, 0, 7) == order[..24]
  {
    assert Triangle(7) == 28;
    TableauRestShape(order, 0, 7);
  }

  /** The remaining 24 cards lie face down in the draw pile, the card
      nearest the bottom of `order` on top, and the four foundations are
      empty. */
  lemma InitialDrawPile(order: seq<Card>)
    requires |order| == 52
    ensures var b := InitialBoard(order);
      && b.homes == NoHomes
      && |b.deck.cards| == 24 && b.deck.flip == 24
      && (forall j :: 0 <= j < 24 ==> b.deck.cards[j] == order[23 - j])
  {
    InitialUntouched(order);
    DrawPileOf(InitialBoard(order).deck, order);
  }

  /** Dealing the first 24 cards of a deck of 52 into the draw pile lays
      them face down in reverse. */
  lemma DrawPileOf(deck: Pile, order: seq<Card>)
    requires |order| == 52 && deck == DealPile(order[..24], 0).0
    ensures |deck.cards| == 24 && deck.flip == 24
    ensures forall j :: 0 <= j < 24 ==> deck.cards[j] == order[23 - j]
  {
    var rest := order[..24];
    assert deck == Pile(Dealt(rest, 24), 24);
    forall j | 0 <= j < 24 ensures deck.cards[j] == order[23 - j] {
      assert deck.cards[j] == rest[23 - j];
    }
  }

  /** A new game is a valid board. */
  lemma InitialBoardValid(order: seq<Card>)
    requires |order| == 52
    ensures InitialBoard(order).Valid()
  {
    InitialTableau(order);
    InitialDrawPile(order);
    var b := InitialBoard(order);
    forall id: PileId | id.Valid() ensures b.Get(id).Divided() {}
    ValidByPiles(b);
  }

  lemma {:induction false} SumCardsEmpty(ps: seq<Pile>)
    requires forall i :: 0 <= i < |ps| ==> ps[i].cards == []
    ensures SumCards(ps) == multiset{}
  {
    if ps != [] {
      SumCardsEmpty(ps[..|ps| - 1]);
    }
  }

  /** A board of a draw pile, tableau piles and empty foundations holds the
      cards of the deck they were dealt from. */
  lemma NewBoardCards(deck: Pile, ps: seq<Pile>, rest: seq<Card>, order: seq<Card>)
    requires SumCards(ps) + multiset(rest) == multiset(order)
    requires multiset(deck.cards) == multiset(rest)
    ensures CardsOf(Board(deck, ps, NoHomes)) == multiset(order)
  {
    SumCardsEmpty(NoHomes);
    Regroup(multiset(deck.cards), SumCards(ps), SumCards(NoHomes), multiset(order));
  }

  /** A new game holds every card of the deck, once for each time the deck
      holds it. */
  lemma InitialBoardConserves(order: seq<Card>)
    ensures CardsOf(InitialBoard(order)) == multiset(order)
  {
    var ps, rest := TableauPiles(order, 0, 7), TableauRest(order, 0, 7);
    var deck := DealPile(rest, 0).0;
    TableauConserves(order, 0, 7);
    DealPileConserves(rest, 0);
    assert DealPile(rest, 0).1 == [];
    NewBoardCards(deck, ps, rest, order);
    UpdateAllKeeps(Board(deck, ps, NoHomes));
  }
}
