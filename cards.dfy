/** Playing cards and the 52-card deck of the current revision
    (Solitaire/playing_cards.py). */
module Cards {
  import opened Wrappers

  datatype Suit = Spade | Heart | Club | Diamond

  /** The suits in the order `Deck()` builds them. */
  const SuitOrder: seq<Suit> := [Spade, Heart, Club, Diamond]

  /** The suit names `Card` accepts, in the same order. */
  const SuitNames: seq<string> := ["Spade", "Heart", "Club", "Diamond"]

  function SuitName(s: Suit): string
  {
    match s
    case Spade => "Spade"
    case Heart => "Heart"
    case Club => "Club"
    case Diamond => "Diamond"
  }

  lemma SuitNamesInOrder()
    ensures forall k :: 0 <= k < 4 ==> SuitNames[k] == SuitName(SuitOrder[k])
  {}

  /** The suit test as written: a suit name, or a suit name followed by 's'. */
  predicate SuitAcceptedAsWritten(text: string)
    ensures text in SuitNames ==> SuitAcceptedAsWritten(text)
    ensures SuitAcceptedAsWritten(text) ==>
      ParseSuit(text).Some? || (|text| > 0 && text[|text| - 1] == 's' && ParseSuit(text[..|text| - 1]).Some?)
  {
    text in SuitNames || (|text| > 0 && text[|text| - 1] == 's' && text[..|text| - 1] in SuitNames)
  }

  /** The suit test the class documentation and the tests ask for: exactly one
      of the four singular names. Used by `NewCard`. */
  function ParseSuit(text: string): (r: Option<Suit>)
    ensures r.Some? <==> text in SuitNames
    ensures r.Some? ==> SuitName(r.value) == text
  {
    if text == "Spade" then Some(Spade)
    else if text == "Heart" then Some(Heart)
    else if text == "Club" then Some(Club)
    else if text == "Diamond" then Some(Diamond)
    else None
  }

  /** Reading back a suit's own name gives the suit: the name is a faithful encoding. */
  lemma ParseSuitName(s: Suit)
    ensures ParseSuit(SuitName(s)) == Some(s)
  {}

  /** The plural name is let through by the check as written, although the
      test of invalid cards expects `Card(1, 'Spades')` to raise. */
  lemma PluralSuitAcceptedAsWritten()
    ensures SuitAcceptedAsWritten("Spades")
    ensures ParseSuit("Spades") == None
  {
    assert "Spades"[..5] == "Spade";
  }

  /** A card: value 1 (Ace) to 13 (King) and a suit. Equality of datatype
      values compares exactly suit and value, as `Card.__eq__` does. */
  datatype Card = Card(value: int, suit: Suit)

  datatype CardError = InvalidValue(value: int) | InvalidSuit(text: string)

  /** `Card(value, suit)`: the value is checked first, then the suit. */
  function NewCard(value: int, suit: string): (r: Result<Card, CardError>)
    ensures r.Ok? <==> 0 < value < 14 && suit in SuitNames
    ensures r.Ok? ==> r.value.value == value && SuitName(r.value.suit) == suit
    ensures !(0 < value < 14) ==> r == Err(InvalidValue(value))
    ensures 0 < value < 14 && suit !in SuitNames ==> r == Err(InvalidSuit(suit))
  {
    if !(0 < value < 14) then Err(InvalidValue(value))
    else
      match ParseSuit(suit)
      case Some(s) => Ok(Card(value, s))
      case None => Err(InvalidSuit(suit))
  }

  /** `Card()` with its default arguments. */
  function DefaultCard(): (c: Card)
    ensures NewCard(1, "Spade") == Ok(c)
  {
    Card(1, Spade)
  }

  /** `Card.__eq__`. */
  function SameCard(a: Card, b: Card): (r: bool)
    ensures r <==> a == b
  {
    a.suit == b.suit && a.value == b.value
  }

  /** The colour `__str__` picks: red for Heart and Diamond, black otherwise. */
  predicate IsRed(s: Suit)
    ensures IsRed(s) <==> SuitName(s) == "Heart" || SuitName(s) == "Diamond"
  {
    s == Heart || s == Diamond
  }

  /** The `cross_color` table of the move rules. */
  function CrossColor(s: Suit): (r: seq<Suit>)
    ensures |r| == 2 && r[0] != r[1] && s !in r
  {
    match s
    case Spade => [Heart, Diamond]
    case Heart => [Spade, Club]
    case Club => [Heart, Diamond]
    case Diamond => [Spade, Club]
  }

  /** `cross_color` lists exactly the suits of the other colour. */
  lemma CrossColorIsOppositeColour(s: Suit, t: Suit)
    ensures t in CrossColor(s) <==> IsRed(s) != IsRed(t)
  {}

  /** `Deck()`: every suit in `SuitOrder`, values 1 to 13 within each suit. */
  function FullDeck(): (d: seq<Card>)
    ensures |d| == 52
  {
    seq(52, i requires 0 <= i < 52 => Card(i % 13 + 1, SuitOrder[i / 13]))
  }

  /** A position in the deck is fixed by its suit block and its value. */
  lemma PositionSplit(i: int, j: int)
    requires 0 <= i < 52 && 0 <= j < 52 && i / 13 == j / 13 && i % 13 == j % 13
    ensures i == j
  {
    assert i == 13 * (i / 13) + i % 13;
    assert j == 13 * (j / 13) + j % 13;
  }

  /** No card appears twice in the full deck. */
  lemma FullDeckDistinct()
    ensures forall i, j :: 0 <= i < j < 52 ==> FullDeck()[i] != FullDeck()[j]
  {
    var d := FullDeck();
    forall i, j | 0 <= i < j < 52 ensures d[i] != d[j] {
      if d[i] == d[j] {
        assert SuitOrder[i / 13] == SuitOrder[j / 13];
        PositionSplit(i, j);
      }
    }
  }

  /** Every card of value 1 to 13 is in the full deck, each at the place
      its suit block and value give it. */
  lemma FullDeckHasEvery()
    ensures forall v, s :: 1 <= v <= 13 ==> Card(v, s) in FullDeck()
  {
    var d := FullDeck();
    forall v, s | 1 <= v <= 13 ensures Card(v, s) in d {
      var k := match s case Spade => 0 case Heart => 1 case Club => 2 case Diamond => 3;
      var i := 13 * k + (v - 1);
      assert i / 13 == k && i % 13 == v - 1;
      assert d[i] == Card(v, s);
    }
  }

  /** Every card of the full deck is one `Card(value, suit)` accepts. */
  lemma FullDeckValid()
    ensures forall c :: c in FullDeck() ==> NewCard(c.value, SuitName(c.suit)) == Ok(c)
  {
    var d := FullDeck();
    forall c | c in d ensures NewCard(c.value, SuitName(c.suit)) == Ok(c) {
      var i :| 0 <= i < 52 && d[i] == c;
      assert 1 <= c.value <= 13;
      ParseSuitName(c.suit);
    }
  }

  /** The full deck holds every one of the 52 valid cards exactly once. */
  lemma FullDeckIsComplete()
    ensures forall i, j :: 0 <= i < j < 52 ==> FullDeck()[i] != FullDeck()[j]
    ensures forall v, s :: 1 <= v <= 13 ==> Card(v, s) in FullDeck()
    ensures forall c :: c in FullDeck() ==> NewCard(c.value, SuitName(c.suit)) == Ok(c)
  {
    FullDeckDistinct();
    FullDeckHasEvery();
    FullDeckValid();
  }

  /** Any order of the full deck has its 52 cards. */
  lemma ShuffledSize(order: seq<Card>)
    requires multiset(order) == multiset(FullDeck())
    ensures |order| == 52
  {
    assert |multiset(order)| == |multiset(FullDeck())|;
  }

  /** The cards a fresh deck deals first: King, Queen, then Jack of Diamonds. */
  lemma FullDeckTop()
    ensures FullDeck()[51] == Card(13, Diamond)
    ensures FullDeck()[50] == Card(12, Diamond)
    ensures FullDeck()[49] == Card(11, Diamond)
  {}

  datatype DeckError = EmptyDeck

  /** `Deck`: a list of cards dealt from its end. */
  class Deck {
    var cards: seq<Card>

    /** `Deck()`: builds the 52 cards suit by suit. */
    constructor ()
      ensures cards == FullDeck()
    {
      var built := [];
      for k := 0 to 4
        invariant built == FullDeck()[..13 * k]
      {
        for value := 1 to 14
          invariant built == FullDeck()[..13 * k + value - 1]
        {
          assert FullDeck()[13 * k + value - 1] == Card(value, SuitOrder[k]);
          built := built + [Card(value, SuitOrder[k])];
        }
      }
      cards := built;
    }

    /** `Deck.shuffle`: the deck takes the order `order`, which must hold the
        same cards; the random choice of that order is left to the caller. */
    method Shuffle(order: seq<Card>)
      requires multiset(order) == multiset(cards)
      modifies this
      ensures cards == order
      ensures multiset(cards) == old(multiset(cards))
    {
      cards := order;
    }

    /** `len(deck)`. */
    function Length(): nat
      reads this
    {
      |cards|
    }

    /** `Deck.deal`: removes and returns the last card; an empty deck raises. */
    method Deal() returns (r: Result<Card, DeckError>)
      modifies this
      ensures old(cards) == [] ==> r == Err(EmptyDeck) && cards == []
      ensures old(cards) != [] ==> r == Ok(old(cards)[|old(cards)| - 1])
      ensures old(cards) != [] ==> cards == old(cards)[..|old(cards)| - 1]
    {
      if cards == [] {
        return Err(EmptyDeck);
      }
      r := Ok(cards[|cards| - 1]);
      cards := cards[..|cards| - 1];
    }
  }
}
