/** `CardPile` of the older revision, defined alike in Solitare/solitare.py and
    Solitare/Solitare.py: cards and a divider `flip` as in the current
    revision, but an empty pile has the divider -1, a dealt pile never has it
    above its length, and `pop` takes Python's negative indices. */
module LegacyPile {
  import opened Wrappers
  import opened Cards
  import opened CardPiles
  import LegacyDeck

  /** A Python index `i` into a list of length `n`: `-n <= i < n`. */
  predicate InRange(n: nat, i: int)
  {
    -(n as int) <= i < n
  }

  /** The position a Python index names: a negative one counts from the end. */
  function PyIndex(n: nat, i: int): (k: nat)
    requires InRange(n, i)
    ensures k < n
  {
    if i < 0 then n + i else i
  }

  /** The start of the Python slice `[i:]` of a list of length `n`: a
      negative start counts from the end, and either kind is clamped to the
      list. */
  function SliceStart(n: nat, i: int): (k: nat)
    ensures k <= n
    ensures InRange(n, i) ==> k == PyIndex(n, i)
    ensures 0 <= i <= n ==> k == i
  {
    if i < 0 then (if n + i < 0 then 0 else n + i)
    else if i > n then n
    else i
  }

  /** `CardPile()`: no cards and the divider at -1. */
  const LegacyEmpty: Pile := Pile([], -1)

  /** `CardPile(adeck, amount)` on values: the new pile and what is left of
      the deck. The amount is cut to the deck's size before dealing, and
      `flip` is set to the number of cards dealt. */
  function LegacyDealPile(deck: seq<Card>, amount: int): (r: (Pile, seq<Card>))
    ensures r.0.flip == |r.0.cards| && |r.0.cards| + |r.1| == |deck|
    ensures 0 < amount <= |deck| ==> |r.0.cards| == amount
    ensures r.1 <= deck
  {
    var k := DealCount(|deck|, amount);
    (Pile(Dealt(deck, k), k), deck[..|deck| - k])
  }

  /** The older pile deals the same cards as the current one, all face down,
      and its divider never passes its length: the two agree exactly unless
      the deck runs dry, where the current divider is left above the length. */
  lemma LegacyDealPileRule(deck: seq<Card>, amount: int)
    ensures var (p, rest) := LegacyDealPile(deck, amount);
      && p.cards == DealPile(deck, amount).0.cards
      && rest == DealPile(deck, amount).1
      && p.flip == |p.cards| && p.Divided()
      && (p == DealPile(deck, amount).0 <==> amount <= |deck|)
      && multiset(p.cards) + multiset(rest) == multiset(deck)
  {
    DealPileFaceDown(deck, amount);
  }

  /** `update` never turns a pile whose divider is -1: an empty pile stays
      as made, and a foundation keeps its divider below its cards. */
  lemma UpdatedKeepsFoundation(p: Pile)
    requires p.flip == -1
    ensures Updated(p) == p
  {
    UpdatedFlipsOnlyTheTop(p);
  }

  class CardPile {
    var pile: seq<Card>
    var flip: int

    function Value(): Pile
      reads this
    {
      Pile(pile, flip)
    }

    /** `CardPile()`: an empty pile. */
    constructor Empty()
      ensures Value() == LegacyEmpty
    {
      pile := [];
      flip := -1;
    }

    /** `CardPile(adeck, amount)`: `amount` cards, or the whole deck when it
        holds fewer or `amount <= 0`, dealt off the end of `adeck`. */
    constructor Deal(adeck: LegacyDeck.Deck, amount: int)
      modifies adeck
      ensures (Value(), adeck.deck) == LegacyDealPile(old(adeck.deck), amount)
    {
      var n := amount;
      if adeck.Length() < n || n <= 0 {
        n := adeck.Length();
      }
      flip := n;
      ghost var original := adeck.deck;
      var dealt := [];
      for x := 0 to n
        invariant dealt == Dealt(original, x)
        invariant adeck.deck == original[..|original| - x]
      {
        var card := adeck.Deal();
        dealt := dealt + [card.value];
      }
      pile := dealt;
    }

    /** `update`. */
    method Update()
      modifies this
      ensures Value() == Updated(old(Value()))
    {
      if |pile| > 0 && flip > |pile| - 1 {
        flip := flip - 1;
      }
    }

    /** `pop(index)`: removes and returns the card at `index` (counted from
        the end when negative); an index outside the pile raises. The card
        leaves the pile and nothing else does. */
    method Pop(index: int) returns (r: Result<Card, LegacyDeck.IndexError>)
      modifies this
      ensures flip == old(flip)
      ensures !InRange(|old(pile)|, index) ==> r == Err(LegacyDeck.IndexError) && pile == old(pile)
      ensures InRange(|old(pile)|, index) ==>
        var k := PyIndex(|old(pile)|, index);
        && r == Ok(old(pile)[k])
        && pile == old(pile)[..k] + old(pile)[k + 1..]
        && multiset(pile) + multiset{r.value} == multiset(old(pile))
    {
      if !InRange(|pile|, index) {
        return Err(LegacyDeck.IndexError);
      }
      var k := PyIndex(|pile|, index);
      ghost var before := pile;
      r := Ok(pile[k]);
      pile := pile[..k] + pile[k + 1..];
      assert before == pile[..k] + [before[k]] + pile[k..];
    }

    /** `len(pile)`. */
    function Length(): nat
      reads this
    {
      |pile|
    }
  }
}
