/** `Deck` of the older revision (Solitare/deck.py): a list of cards, built
    as the full 52 or taken off the end of another deck, dealt from its end. */
module LegacyDeck {
  import opened Wrappers
  import opened Cards
  import opened CardPiles

  /** The error a Python list raises when popped empty or indexed outside. */
  datatype IndexError = IndexError

  /** The number of cards `Deck(source, amount)` takes from a source of
      `size` cards: the amount is replaced by the size when
      `size < amount <= 0`, and `range` of the result is taken. That guard
      can never hold, so the amount is used as given, and nothing is taken
      for an amount of zero or less. */
  function TakenCount(size: nat, amount: int): (k: nat)
    ensures amount <= 0 ==> k == 0
    ensures amount > 0 ==> k == amount
  {
    var n := if size < amount <= 0 then size else amount;
    if n <= 0 then 0 else n
  }

  class Deck {
    var deck: seq<Card>

    /** `Deck()`: the 52 cards, suit by suit in the order Spade, Heart, Club,
        Diamond, values 1 to 13 within each suit. */
    constructor ()
      ensures deck == FullDeck()
    {
      deck := [];
      new;
      for k := 0 to 4
        invariant deck == FullDeck()[..13 * k]
      {
        for value := 1 to 14
          invariant deck == FullDeck()[..13 * k + value - 1]
        {
          assert FullDeck()[13 * k + value - 1] == Card(value, SuitOrder[k]);
          deck := deck + [Card(value, SuitOrder[k])];
        }
      }
    }

    /** The empty list `__init__` starts from before taking cards from a
        source. */
    constructor Empty()
      ensures deck == []
    {
      deck := [];
    }

    /** `Deck(source, amount)`: deals `amount` cards off `source` into a new
        deck, in the order dealt. When `source` runs out first, the dealing
        raises after emptying it. */
    static method From(source: Deck, amount: int) returns (r: Result<Deck, IndexError>)
      modifies source
      ensures amount <= |old(source.deck)| ==>
        && r.Ok? && fresh(r.value)
        && r.value.deck == Dealt(old(source.deck), TakenCount(|old(source.deck)|, amount))
        && source.deck == old(source.deck)[..|old(source.deck)| - TakenCount(|old(source.deck)|, amount)]
      ensures amount > |old(source.deck)| ==> r == Err(IndexError) && source.deck == []
    {
      var taken := new Deck.Empty();
      ghost var original := source.deck;
      for x := 0 to TakenCount(|source.deck|, amount)
        invariant x <= |original|
        invariant source.deck == original[..|original| - x] && taken.deck == Dealt(original, x)
        invariant fresh(taken)
      {
        var card := source.Deal();
        if card.Err? {
          return Err(IndexError);
        }
        taken.deck := taken.deck + [card.value];
      }
      return Ok(taken);
    }

    /** `len(deck)`. */
    function Length(): nat
      reads this
    {
      |deck|
    }

    /** `shuffle()`: the deck takes the order `order`, which must hold the
        same cards; the random choice of that order is left to the caller. */
    method Shuffle(order: seq<Card>)
      requires multiset(order) == multiset(deck)
      modifies this
      ensures deck == order
    {
      deck := order;
    }

    /** `deal()`: removes and returns the last card; an empty deck raises. */
    method Deal() returns (r: Result<Card, IndexError>)
      modifies this
      ensures old(deck) == [] ==> r == Err(IndexError) && deck == []
      ensures old(deck) != [] ==> r == Ok(old(deck)[|old(deck)| - 1])
      ensures old(deck) != [] ==> deck == old(deck)[..|old(deck)| - 1]
    {
      if deck == [] {
        return Err(IndexError);
      }
      r := Ok(deck[|deck| - 1]);
      deck := deck[..|deck| - 1];
    }
  }

  /** What `Deck(source, amount)` leaves: the taken cards and the rest of the
      source are the source's cards, none lost and none added. */
  lemma TakenConserves(source: seq<Card>, amount: int)
    requires amount <= |source|
    ensures multiset(Dealt(source, TakenCount(|source|, amount))) + multiset(source[..|source| - TakenCount(|source|, amount)]) == multiset(source)
  {
    DealtConserves(source, TakenCount(|source|, amount));
  }
}
