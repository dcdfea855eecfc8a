/** `CardPile` of the current revision (Solitaire/solitaire.py): a list of
    cards and one divider index `flip`. Cards below `flip` are face down,
    cards from `flip` to the end are face up. */
module CardPiles {
  import opened Wrappers
  import opened Cards

  /** The value a `CardPile` holds: its cards, bottom first, and its divider. */
  datatype Pile = Pile(cards: seq<Card>, flip: int) {

    /** The divider invariant `0 <= flip <= len`. */
    predicate Divided()
    {
      0 <= flip <= |cards|
    }
  }

  const EmptyPile: Pile := Pile([], 0)

  /** `CardPile.update`: turn the top card face up when it is face down. */
  function Updated(p: Pile): (r: Pile)
    ensures r.cards == p.cards
    ensures r == p || r.flip == p.flip - 1
  {
    if |p.cards| > 0 && p.flip > |p.cards| - 1 then Pile(p.cards, p.flip - 1) else p
  }

  /** `update` never touches the cards and moves the divider down by exactly
      one, only when the pile is non-empty and its top card is face down. It
      keeps the divider invariant, leaves the top card face up, and a second
      call changes nothing. */
  lemma UpdatedFlipsOnlyTheTop(p: Pile)
    ensures Updated(p).cards == p.cards
    ensures Updated(p).flip == p.flip - 1 <==> |p.cards| > 0 && p.flip >= |p.cards|
    ensures Updated(p).flip != p.flip - 1 ==> Updated(p) == p
    ensures p.Divided() ==> Updated(p).Divided()
    ensures p.Divided() && |p.cards| > 0 ==> Updated(p).flip < |p.cards|
    ensures p.flip <= |p.cards| ==> Updated(Updated(p)) == Updated(p)
  {}

  /** `list.index`: the position of the first card equal to `c`. */
  function FirstIndex(cards: seq<Card>, c: Card): (r: nat)
    requires c in cards
    ensures r < |cards| && cards[r] == c
    ensures forall j :: 0 <= j < r ==> cards[j] != c
  {
    if cards[0] == c then 0 else 1 + FirstIndex(cards[1..], c)
  }

  /** The first `k` cards dealt off the end of `deck`, in the order dealt. */
  function Dealt(deck: seq<Card>, k: nat): (r: seq<Card>)
    requires k <= |deck|
    ensures |r| == k
    ensures forall j :: 0 <= j < k ==> r[j] == deck[|deck| - 1 - j]
  {
    seq(k, j requires 0 <= j < k => deck[|deck| - 1 - j])
  }

  /** Dealing moves cards and loses none: the dealt cards and the rest of the
      deck together are the deck. */
  lemma {:induction false} DealtConserves(deck: seq<Card>, k: nat)
    requires k <= |deck|
    ensures multiset(Dealt(deck, k)) + multiset(deck[..|deck| - k]) == multiset(deck)
  {
    if k == 0 {
      assert deck[..|deck|] == deck;
    } else {
      var n := |deck|;
      DealtConserves(deck, k - 1);
      assert Dealt(deck, k) == Dealt(deck, k - 1) + [deck[n - k]];
      assert deck[..n - (k - 1)] == deck[..n - k] + [deck[n - k]];
      calc {
        multiset(Dealt(deck, k)) + multiset(deck[..n - k]);
        multiset(Dealt(deck, k - 1)) + multiset{deck[n - k]} + multiset(deck[..n - k]);
        multiset(Dealt(deck, k - 1)) + multiset(deck[..n - (k - 1)]);
      }
    }
  }

  /** The number of cards `CardPile(deck, amount)` actually deals. */
  function DealCount(deckSize: nat, amount: int): (k: nat)
    ensures k <= deckSize
    ensures 0 < amount <= deckSize ==> k == amount
    ensures amount <= 0 || amount >= deckSize ==> k == deckSize
  {
    var n := if amount <= 0 then deckSize else amount;
    if n < deckSize then n else deckSize
  }

  /** `CardPile(deck, amount)` on values: the new pile and what is left of the
      deck. `flip` is set to the requested amount before dealing. */
  function DealPile(deck: seq<Card>, amount: int): (r: (Pile, seq<Card>))
    ensures |r.0.cards| == DealCount(|deck|, amount) && |r.0.cards| + |r.1| == |deck|
    ensures r.0.flip >= |r.0.cards|
  {
    var n := if amount <= 0 then |deck| else amount;
    var k := DealCount(|deck|, amount);
    (Pile(Dealt(deck, k), n), deck[..|deck| - k])
  }

  /** Dealing a pile loses no card. */
  lemma DealPileConserves(deck: seq<Card>, amount: int)
    ensures multiset(DealPile(deck, amount).0.cards) + multiset(DealPile(deck, amount).1) == multiset(deck)
  {
    DealtConserves(deck, DealCount(|deck|, amount));
  }

  /** A new pile holds `amount` cards (all of the deck when `amount <= 0`),
      all face down, with the first card dealt at the bottom. When the deck
      runs dry the pile is short and `flip` is left above its length. */
  lemma DealPileFaceDown(deck: seq<Card>, amount: int)
    ensures var (p, rest) := DealPile(deck, amount);
      && |p.cards| == DealCount(|deck|, amount)
      && (0 < amount <= |deck| ==> |p.cards| == amount)
      && (amount <= 0 ==> |p.cards| == |deck| && rest == [])
      && (p.flip == |p.cards| <==> amount <= |deck|)
      && (p.flip > |p.cards| <==> amount > |deck|)
      && (|p.cards| > 0 ==> p.cards[0] == deck[|deck| - 1])
      && multiset(p.cards) + multiset(rest) == multiset(deck)
  {
    DealtConserves(deck, DealCount(|deck|, amount));
  }

  /** `CardPile`: a list of cards with a face-down/face-up divider. */
  class CardPile {
    var pile: seq<Card>
    var flip: int

    function Value(): Pile
      reads this
    {
      Pile(pile, flip)
    }

    /** `CardPile()`: an empty pile. */
    constructor Empty()
      ensures Value() == EmptyPile
    {
      pile := [];
      flip := 0;
    }

    /** `CardPile(deck, amount)`: deals from the end of `deck` until `amount`
        cards are dealt or the deck runs dry. */
    constructor Deal(deck: Deck, amount: int)
      modifies deck
      ensures (Value(), deck.cards) == DealPile(old(deck.cards), amount)
    {
      var n := amount;
      if n <= 0 {
        n := |deck.cards|;
      }
      ghost var original := deck.cards;
      var dealt: seq<Card> := [];
      var i := 0;
      while i < n
        invariant 0 <= i <= |original| && i <= n
        invariant dealt == Dealt(original, i)
        invariant deck.cards == original[..|original| - i]
      {
        var r := deck.Deal();
        if r.Err? {
          break;
        }
        dealt := dealt + [r.value];
        i := i + 1;
      }
      pile := dealt;
      flip := n;
    }

    /** `update`. */
    method Update()
      modifies this
      ensures Value() == Updated(old(Value()))
    {
      if |pile| > 0 && flip > |pile| - 1 {
        flip := flip - 1;
      }
    }

    /** `get_face_up`: the face-up cards with their indices, bottom to top. */
    function FaceUp(): (r: seq<(Card, nat)>)
      reads this
      requires 0 <= flip
      ensures |r| == if flip < |pile| then |pile| - flip else 0
      ensures forall k :: 0 <= k < |r| ==> r[k] == (pile[flip + k], flip + k)
    {
      if flip >= |pile| then []
      else
        var cards, from := pile, flip as nat;
        seq(|cards| - from, k requires 0 <= k < |cards| - from => (cards[from + k], from + k))
    }

    /** `index`: where the first card equal to `item` lies. */
    function Index(item: Card): nat
      reads this
      requires item in pile
    {
      FirstIndex(pile, item)
    }

    /** `move_card(source, index)`: pops the card at `index` of `source`
        (a negative index counts from the end) and appends it here. */
    method MoveCard(source: CardPile, index: int)
      requires -|source.pile| <= index < |source.pile|
      modifies this, source
      ensures flip == old(flip) && source.flip == old(source.flip)
      ensures var k := if index < 0 then |old(source.pile)| + index else index;
        if source == this then
          pile == old(pile[..k] + pile[k + 1..]) + [old(pile[k])]
        else
          && pile == old(pile) + [old(source.pile[k])]
          && source.pile == old(source.pile[..k] + source.pile[k + 1..])
    {
      var k := if index < 0 then |source.pile| + index else index;
      var card := source.pile[k];
      source.pile := source.pile[..k] + source.pile[k + 1..];
      pile := pile + [card];
    }

    /** `move_cards(source, index)`: appends `source[index:]` in order, then
        deletes it from `source`. */
    method MoveCards(source: CardPile, index: int)
      requires 0 <= index <= |source.pile|
      modifies this, source
      ensures flip == old(flip) && source.flip == old(source.flip)
      ensures source != this ==> pile == old(pile) + old(source.pile[index..])
      ensures source != this ==> source.pile == old(source.pile[..index])
      ensures source == this ==> pile == old(pile[..index])
    {
      var run := source.pile[index..];
      pile := pile + run;
      source.pile := source.pile[..index];
    }
  }
}
