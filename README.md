# Klondike solitaire engine, modelled in Dafny

This project models the rules engine of a Klondike solitaire program in
three revisions, and proves properties of it.

**The current revision.** The files are Solitaire/playing_cards.py and
Solitaire/solitaire.py.
- A validated `Card` is a value from 1 to 13 and one of four suits.
- A `Deck` is a list dealt from its end.
- A `CardPile` is a list of cards with one divider, `flip`. Cards below it are
  face down; cards from it to the end are face up.
- The `Solitaire` board has one draw/waste pile, seven tableau piles and four
  foundations. Its operations are `deal`, the dual-mode `move_pile` and
  `move_home`, `check_win` and `_update`.

The classes are Dafny classes whose methods change their fields in place
(modules `Cards`, `CardPiles` and `Game`). Each method is proved to act on the
board's value exactly as a function on values in module `Rules` says. The
properties the game promises are lemmas about those functions:
- the divider invariant;
- conservation of the cards;
- the one-lower, other-colour rule of the tableau;
- King to an empty pile, Ace to an empty foundation;
- suit-ascending foundations;
- the deal cycle;
- the shape of a new game.

The source names piles by object identity (`source_pile is self.deck`). Here a
pile is named by a `PileId`: the draw pile, `Tableau(i)` or `Home(j)`. The
`move=False` probes are the pure predicates `CanMovePile` and
`MoveHomeVerdict`. The methods' results are proved equal to them, with no pile
changed when `move` is false.

`Game.Solitaire.constructor` runs `_update` after the foundations and the draw
pile are made; the source runs it before. This is the same game, because
`update` touches only the tableau piles.

Moving a run from a pile onto that same pile keeps only the cards below the
run, because the source extends and then cuts one list. `Rules.MoveCardsOntoItself`
states this, and `Rules.OwnPileRunLosesCards` gives a board where the move is
legal and loses every card (see "## Findings"). The game and solver classes
model the code as written, so their conservation lemmas exclude that one case.
`Rules.MovePileChecked` is the move with that case refused, and it keeps every
card.

**The solver.** main.py holds `weight_move` and `AutoMove` (module `Solver`).
- `weight_move` is the fixed priority table.
- `AutoMove.__call__` updates the memory of weighted candidate moves in four
  phases, selects the first entry of least weight and plays it.
- The memory is a Python dictionary, whose iteration order is insertion order.
  Here it is a sequence of entries with distinct keys.
- `create_complete_game` is a concrete board of the 52 cards.

**The older revision.** The files are Solitare/card.py, Solitare/deck.py,
Solitare/solitare.py and Solitare/Solitare.py (modules `LegacyCard`,
`LegacyDeck`, `LegacyPile`, `LegacyRules`, `LegacyGame`, `LegacyNamedGame`).
- An empty pile has the divider -1.
- Foundations are fixed by suit.
- Python's negative indices are taken as Python takes them.
- An index outside a pile raises `IndexError`, here an error result.

The rules are one set of functions with a `reflip` switch:
- Solitare/solitare.py turns the source up after a move (`reflip` on).
- Solitare/Solitare.py does not (`reflip` off).

In the older `movepile`, the source finds the moving card's position with
`list.index`, which compares by identity. Here that position is the position
the scan reached.

**Randomness and I/O.** The order a shuffle picks is a parameter. Rendering,
printing and the interactive drivers are outside the model.

## Model

| member | source | states |
|---|---|---|
| Cards.SuitNamesInOrder | Solitaire/playing_cards.py:35 | The accepted suit names, in order, are the names of Spade, Heart, Club and Diamond. |
| Cards.ParseSuit | Solitaire/playing_cards.py:35-39 | A suit text is accepted exactly when it is one of the four singular names, and it then names that suit. |
| Cards.ParseSuitName | Solitaire/playing_cards.py:35-39 | Reading back a suit's own name gives that suit. |
| Cards.PluralSuitAcceptedAsWritten | Solitaire/playing_cards.py:36 | The check as written lets "Spades" through, although the singular-name rule rejects it. |
| Cards.NewCard | Solitaire/playing_cards.py:31-39 | The corrected suit rule of the Findings row: a card is made exactly when the value is 1 to 13 and the suit is one of the four singular names. The value is checked first, as at lines 31-34, so a bad value is the error even when the suit is bad too. |
| Cards.DefaultCard | Solitaire/playing_cards.py:22-39 | `Card()` is the valid Ace of Spades. |
| Cards.SameCard | Solitaire/playing_cards.py:65-66 | Two cards are equal exactly when value and suit are. |
| Cards.CrossColorIsOppositeColour | Solitaire/solitaire.py:198-201 | `cross_color` of a suit lists exactly the suits of the other colour, with red being Heart and Diamond. |
| Cards.FullDeck | Solitaire/playing_cards.py:88-93 | `Deck()` holds 52 cards. |
| Cards.FullDeckDistinct | Solitaire/playing_cards.py:88-93 | No card appears twice in the full deck. |
| Cards.FullDeckHasEvery | Solitaire/playing_cards.py:88-93 | Every card of value 1 to 13 in every suit is in the full deck. |
| Cards.FullDeckValid | Solitaire/playing_cards.py:88-93 | Every card of the full deck is one that `Card(value, suit)` accepts. |
| Cards.FullDeckIsComplete | Solitaire/playing_cards.py:237-246 | The full deck is exactly the 52 valid cards, each once. |
| Cards.ShuffledSize | Solitaire/playing_cards.py:129-131 | Any reordering of the full deck still has 52 cards. |
| Cards.FullDeckTop | Solitaire/playing_cards.py:262-269 | A fresh deck deals the King, then the Queen, then the Jack of Diamonds. |
| Cards.Deck.constructor | Solitaire/playing_cards.py:88-93 | The nested loops build the full deck, suit by suit. |
| Cards.Deck.Shuffle | Solitaire/playing_cards.py:129-131 | The deck takes the given order and keeps the same cards. |
| Cards.Deck.Deal | Solitaire/playing_cards.py:133-135 | Removes and returns the last card. An empty deck gives the error and stays empty. |
| Cards.SuitAcceptedAsWritten | Solitaire/playing_cards.py:35-36 | The suit test as written lets every singular name through. Whatever it lets through is a singular name, or a singular name followed by "s". |
| Cards.IsRed | Solitaire/playing_cards.py:45-48 | A suit is red exactly when it is named Heart or Diamond. |
| Cards.CrossColor | Solitaire/solitaire.py:198-201 | `cross_color[suit]` lists two different suits, and neither is the suit itself. |
| CardPiles.UpdatedFlipsOnlyTheTop | Solitaire/solitaire.py:64-67 | `update` keeps the cards. It lowers the divider by exactly one, and only when the pile is non-empty and its top card is face down; otherwise it changes nothing. It keeps the divider invariant, leaves the top card face up, and is idempotent from `flip <= len`. |
| CardPiles.FirstIndex | Solitaire/solitaire.py:61-62 | `index` finds the first position holding a card equal to the given one. |
| CardPiles.Dealt | Solitaire/solitaire.py:44-46 | The k cards dealt are the last k of the deck, taken from the end. |
| CardPiles.DealtConserves | Solitaire/solitaire.py:44-49 | The dealt cards and the rest of the deck together are the deck. |
| CardPiles.DealPileConserves | Solitaire/solitaire.py:28-49 | Dealing a pile loses no card. |
| CardPiles.DealPileFaceDown | Solitaire/solitaire.py:38-49 | A new pile holds `amount` cards, or the whole deck when `amount <= 0`, all face down, with the first card dealt at the bottom. When the deck runs dry the pile is short and `flip` is left above its length. |
| CardPiles.CardPile.Empty | Solitaire/solitaire.py:38-39 | `CardPile()` is an empty pile. |
| CardPiles.CardPile.Deal | Solitaire/solitaire.py:28-49 | The dealing loop leaves the pile and the deck that `DealPile` describes. |
| CardPiles.CardPile.Update | Solitaire/solitaire.py:64-67 | The pile's new value is `Updated` of its old value. |
| CardPiles.CardPile.FaceUp | Solitaire/solitaire.py:69-76 | `get_face_up` lists exactly the face-up cards with their indices, bottom to top. |
| CardPiles.CardPile.MoveCard | Solitaire/solitaire.py:78-86 | The card at the index, which counts from the end when negative, leaves the source and is appended here. When the source is this pile, the card goes to the top. Dividers are untouched. |
| CardPiles.CardPile.MoveCards | Solitaire/solitaire.py:88-98 | `source[index:]` is appended in order and the source is cut to `source[:index]`. On one pile only the cards below the index remain. |
| CardPiles.Updated | Solitaire/solitaire.py:64-67 | `update` keeps the cards. It either leaves the divider where it was or lowers it by one. |
| CardPiles.DealCount | Solitaire/solitaire.py:40-49 | `CardPile(deck, amount)` never deals more cards than the deck has. It deals `amount` when that is positive and within the deck. It deals the whole deck when `amount` is zero or less, or at least the deck's size. |
| CardPiles.DealPile | Solitaire/solitaire.py:28-49 | The new pile holds `DealCount` cards, and it and the rest of the deck are as many cards as the deck was. The divider is at or above the count, because it keeps the requested amount when the deck runs dry. |
| Rules.MoveCardOn | Solitaire/solitaire.py:78-86 | On a board, `move_card` changes only the source and destination cards, as above. Every divider and every other pile is kept. |
| Rules.MoveCardsOn | Solitaire/solitaire.py:88-98 | On a board, `move_cards` appends the run to the destination, cuts the source and changes nothing else. |
| Rules.MoveCardOnConserves | Solitaire/solitaire.py:78-86 | Moving one card keeps every card on the board, even within one pile. |
| Rules.MoveCardsOnConserves | Solitaire/solitaire.py:88-98 | Moving a run to another pile keeps every card on the board. |
| Rules.MoveCardsOntoItself | Solitaire/solitaire.py:97-98 | Moving a run onto its own pile keeps only the cards below the run. |
| Rules.UpdateAll | Solitaire/solitaire.py:292-295 | `_update` turns up each tableau pile and leaves the draw pile, the foundations and every card where they were. |
| Rules.UpdateAllKeeps | Solitaire/solitaire.py:292-295 | `_update` keeps the cards of the board and keeps a valid board valid. |
| Rules.FirstStacking | Solitaire/solitaire.py:220-223 | The scan finds the lowest card at or above the start that stacks on the given top. When there is none, no card there stacks. |
| Rules.MovePilePlan | Solitaire/solitaire.py:196-245 | A legal `move_pile` moves a card at an index inside the source, from a source with a face-up card. A run always starts at or above the divider. |
| Rules.MovePileResult | Solitaire/solitaire.py:182-245 | The board after `move_pile` keeps its shape. |
| Rules.MovePileNeedsFaceUp | Solitaire/solitaire.py:196-197 | With no face-up card in the source, `move_pile` is illegal and changes nothing. |
| Rules.MovePileFromWaste | Solitaire/solitaire.py:204-218 | Onto a non-empty pile that is not a foundation, the waste card moves alone, exactly when it is one lower than the top card and of the other colour. |
| Rules.MovePileRunRule | Solitaire/solitaire.py:219-227 | From a tableau pile, the move is legal exactly when some face-up card stacks on the destination's top. The run from the lowest such card is what moves. |
| Rules.MovePileOntoFoundation | Solitaire/solitaire.py:204-218 | Onto a non-empty foundation, the shown card (the waste card or the top card) moves alone, exactly when it has the top's suit and is one higher. |
| Rules.MovePileOntoEmpty | Solitaire/solitaire.py:229-245 | Onto an empty tableau pile, only a King at the divider moves: alone from the waste, as the whole face-up run from a pile. Onto an empty foundation, only an Ace moves, as the shown card. Nothing moves onto an empty draw pile. |
| Rules.MovePileEffect | Solitaire/solitaire.py:202-245 | A legal move between two piles changes only their cards: one card goes to the top of the destination, or the run moves intact and in order. |
| Rules.MovePileKeepsValid | Solitaire/solitaire.py:182-245 | Legal or not, `move_pile` keeps the board valid. It keeps every card unless it moves a run onto its own pile. |
| Rules.HomeWithSuit | Solitaire/solitaire.py:267-271 | Finds the first foundation whose bottom card has the suit, or reports that none has. |
| Rules.FirstEmptyHome | Solitaire/solitaire.py:272-276 | Finds the first empty foundation, or reports that none is empty. |
| Rules.HomeTargetChoice | Solitaire/solitaire.py:267-276 | The chosen foundation is the first with the suit, else the first empty one. There is none exactly when every foundation is non-empty and of another suit. |
| Rules.MoveHomePlan | Solitaire/solitaire.py:260-284 | A legal `move_home` names a foundation and a card inside the source. |
| Rules.MoveHomeResult | Solitaire/solitaire.py:247-284 | The board after `move_home` keeps its shape. |
| Rules.MoveHomeRule | Solitaire/solitaire.py:260-284 | `move_home` is false without a face-up card and raises when no foundation fits. Otherwise it is legal exactly when the chosen foundation is empty and the card an Ace, or holds the suit and the card is one higher than its top. |
| Rules.MoveHomeNotOntoItself | Solitaire/solitaire.py:277-281 | A legal `move_home` never targets its own source. |
| Rules.MoveHomeEffect | Solitaire/solitaire.py:280-282 | A legal `move_home` moves exactly the shown card onto the chosen foundation; every other pile keeps its cards. |
| Rules.MoveHomeKeepsValid | Solitaire/solitaire.py:247-284 | Legal or not, `move_home` keeps the board valid and every card on it. |
| Rules.MoveHomeUnchangedUnlessLegal | Solitaire/solitaire.py:277-284 | An illegal `move_home` leaves the board as it was. |
| Rules.DealBoard | Solitaire/solitaire.py:165-180 | The board after `deal` keeps its shape. |
| Rules.DealRule | Solitaire/solitaire.py:165-180 | `deal` keeps every card and its order and every other pile. It resets an exhausted draw pile to all face down, and otherwise sets the divider to `max(0, flip - amount)`. |
| Rules.DealCountdown | Solitaire/solitaire.py:174-179 | While face-down cards remain, n deals leave `flip - n * amount` of them, or none. |
| Rules.DealCycle | Solitaire/solitaire.py:174-179 | From 24 face-down cards, eight deals of three turn all of them up, and the ninth turns them all back down. |
| Rules.WonMeansAllHome | Solitaire/solitaire.py:286-290 | A won board of 52 cards has an empty draw pile and an empty tableau. |
| Rules.TableauPiles | Solitaire/solitaire.py:125-128 | Dealing the tableau gives one pile per size. |
| Rules.TableauStep | Solitaire/solitaire.py:125-128 | Each tableau pile is dealt from what the earlier piles left, and leaves the rest to the later ones. |
| Rules.TableauRestShape | Solitaire/solitaire.py:125-128 | After the tableau is dealt, exactly the cards below the dealt ones remain. |
| Rules.TableauConserves | Solitaire/solitaire.py:125-128 | Dealing the tableau loses no card. |
| Rules.InitialBoard | Solitaire/solitaire.py:118-131 | A new game is a board of seven tableau piles and four foundations. |
| Rules.InitialPile | Solitaire/solitaire.py:125-129 | Tableau pile i has i + 1 cards with only the top one face up. Its bottom card is the first card dealt for it. |
| Rules.TableauPileFrom | Solitaire/solitaire.py:125-128 | Pile i is dealt, i + 1 cards, from what the earlier piles left. |
| Rules.DealEnough | Solitaire/solitaire.py:40-46 | A pile dealt from a deck that has enough cards holds the last k of them, all face down. |
| Rules.InitialTableau | Solitaire/solitaire.py:125-129 | In a new game, for any order of the 52 cards, the tableau piles have 1 to 7 cards and exactly one face-up card each. |
| Rules.InitialUntouched | Solitaire/solitaire.py:129-131 | Turning up the tableau leaves the draw pile and the empty foundations as dealt. |
| Rules.InitialRest | Solitaire/solitaire.py:125-128 | The tableau takes 28 cards and leaves the first 24. |
| Rules.InitialDrawPile | Solitaire/solitaire.py:131 | The draw pile holds the other 24 cards, face down with `flip == 24`, in reverse order. The foundations are empty. |
| Rules.DrawPileOf | Solitaire/solitaire.py:131 | The 24 remaining cards lie face down in the draw pile, in reverse. |
| Rules.InitialBoardValid | Solitaire/solitaire.py:118-131 | A new game satisfies the divider invariant. |
| Rules.NewBoardCards | Solitaire/solitaire.py:130-131 | A board of a draw pile, a tableau and empty foundations holds the cards of the deck it was dealt from. |
| Rules.InitialBoardConserves | Solitaire/solitaire.py:118-131 | A new game holds exactly the cards of the deck order, each as often as the order does. |
| Rules.Stacks | Solitaire/solitaire.py:211-214 | A card goes on a tableau card exactly when it is one lower and of the other colour. |
| Rules.Builds | Solitaire/solitaire.py:208-210 | A card that goes on a foundation card is a different card and would not go on it on the tableau. |
| Rules.CanMovePile | Solitaire/solitaire.py:182-245 | `move_pile(..., move=False)` holds only when the source has a face-up card. |
| Rules.HomeTarget | Solitaire/solitaire.py:267-276 | The foundation `move_home` picks, when there is one, exists and is either empty or has a bottom card of the card's suit. |
| Rules.MoveHomeVerdict | Solitaire/solitaire.py:259-284 | `move_home(..., move=False)` is true only when the source has a face-up card. It raises only when the source has a face-up card and no foundation can take that card's suit. |
| Rules.DealtFlip | Solitaire/solitaire.py:174-179 | `deal` keeps the draw pile's divider within the pile, and a positive divider never rises. |
| Rules.HasWon | Solitaire/solitaire.py:286-290 | When `check_win` holds, the four foundations hold 52 cards between them. |
| Rules.OwnPileRunLegal | Solitaire/solitaire.py:219-227 | On a board whose first pile holds 2 of Hearts, Ace, 2 and 3 of Spades, all face up, moving that pile onto itself is legal. The run test picks the 2 of Hearts. |
| Rules.OwnPileRunLosesCards | Solitaire/solitaire.py:97-98 | That move leaves no card on a board that held four. |
| Rules.MovePileChecked | Solitaire/solitaire.py:182-245 | The corrected move refuses a pile onto itself and otherwise moves as written. Whatever the pair, every card stays on the board and every pile stays divided. |
| Game.DealTableauPile | Solitaire/solitaire.py:125-128 | `CardPile(deck, n + 1)` makes tableau pile n of a new game and leaves the rest of the deck. |
| Game.ShuffledDeck | Solitaire/solitaire.py:123-124 | `Deck()` and `shuffle()` give a new deck in the given order. |
| Game.DealTableau | Solitaire/solitaire.py:125-128 | The loop makes seven distinct new piles, dealt as `TableauPiles` says, and leaves the rest of the deck. |
| Game.EmptyHomes | Solitaire/solitaire.py:130 | Makes four distinct new empty foundations. |
| Game.NewPiles | Solitaire/solitaire.py:123-131 | Makes the tableau, the foundations and the draw pile as distinct new objects, with the values of a new deal. |
| Game.NewTableau | Solitaire/solitaire.py:123-131 | Makes the tableau and the draw pile of a new deal. |
| Game.FindStacking | Solitaire/solitaire.py:220-223 | The loop over `get_face_up` finds the same index as `FirstStacking`. |
| Game.Solitaire.constructor | Solitaire/solitaire.py:118-131 | A new game is a valid board equal to `InitialBoard` of the shuffled order. |
| Game.Solitaire.UpdateTableau | Solitaire/solitaire.py:292-295 | The board becomes `UpdateAll` of the old board. |
| Game.Solitaire.Deal | Solitaire/solitaire.py:165-180 | Always returns true. The board becomes `DealBoard` of the old board, and stays valid. |
| Game.Solitaire.TransferCard | Solitaire/solitaire.py:78-86 | `move_card` between named piles acts on the board as `MoveCardOn`. |
| Game.Solitaire.TransferCardWithin | Solitaire/solitaire.py:78-86 | As `TransferCard`, for a pile onto itself. |
| Game.Solitaire.TransferCardAcross | Solitaire/solitaire.py:78-86 | As `TransferCard`, between two different piles. |
| Game.Solitaire.TransferRun | Solitaire/solitaire.py:88-98 | `move_cards` between named piles acts on the board as `MoveCardsOn`. |
| Game.Solitaire.CommitCard | Solitaire/solitaire.py:215-217 | Making a legal one-card move gives `MovePileResult` and keeps the board valid. |
| Game.Solitaire.CommitRun | Solitaire/solitaire.py:224-226 | Making a legal run move gives `MovePileResult` and keeps the board valid. |
| Game.Solitaire.MovePile | Solitaire/solitaire.py:182-245 | Returns exactly `CanMovePile` of the old board. With `move` the board becomes `MovePileResult`; without it nothing changes. The board stays valid. |
| Game.Solitaire.MoveTopCard | Solitaire/solitaire.py:204-218 | The same contract for a move from the draw pile or onto a foundation, onto a non-empty pile. |
| Game.Solitaire.MoveRun | Solitaire/solitaire.py:219-227 | The same contract for the run scan between non-foundation piles. |
| Game.Solitaire.MoveAce | Solitaire/solitaire.py:229-245 | The same contract onto an empty foundation. |
| Game.Solitaire.MoveKing | Solitaire/solitaire.py:229-245 | The same contract onto an empty pile that is not a foundation. |
| Game.Solitaire.FindHome | Solitaire/solitaire.py:267-276 | The two search loops choose `HomeTarget`. |
| Game.Solitaire.FindSuitHome | Solitaire/solitaire.py:267-271 | The first loop finds the first foundation with the suit. |
| Game.Solitaire.FindEmptyHome | Solitaire/solitaire.py:272-276 | The second loop finds the first empty foundation. |
| Game.Solitaire.MoveHome | Solitaire/solitaire.py:247-284 | Returns exactly `MoveHomeVerdict` of the old board, including the error when no foundation fits. With `move` the board becomes `MoveHomeResult`; without it nothing changes. The board stays valid. |
| Game.Solitaire.MoveToHome | Solitaire/solitaire.py:277-284 | Once the foundation is chosen, the legality test and the move meet the same contract. |
| Game.Solitaire.CommitHome | Solitaire/solitaire.py:280-282 | Making a legal `move_home` gives `MoveHomeResult` and keeps the board valid. |
| Game.Solitaire.CheckWin | Solitaire/solitaire.py:286-290 | True exactly when every foundation holds 13 cards. |
| Solver.WeightOfLegalMove | main.py:126-162 | Every legal move has a weight. It is 0 exactly onto a foundation, 5 exactly from a foundation to the tableau, and 1 exactly from the waste to the tableau. Between tableau piles, 99 means a pile with no face-down cards going to an empty pile; moving the whole face-up run weighs 2 or 99; 3 only when part of the run stays. |
| Solver.DealWeighsFour | main.py:148-150 | The deal pair always weighs 4. |
| Solver.PutStores | main.py:180 | `moves[k] = w` maps k to w, keeps every other entry and its order, and puts a new key last. |
| Solver.DeleteRemoves | main.py:183 | `del moves[k]` removes exactly k's entries. |
| Solver.DeleteAt | main.py:194 | Deleting the key of entry i leaves the entries before and after it, in order. |
| Solver.FirstMinimum | main.py:193 | `min(moves, key=moves.get)` is the first entry of least weight. |
| Solver.Choose | main.py:193-194 | Selection fails exactly on an empty memory. |
| Solver.ReinforcedEffect | main.py:178-180 | Phase 1 stores the legal reverse of the last move at 99 and keeps every other entry. |
| Solver.PrunedMembers | main.py:181-183 | Phase 2 keeps exactly the entries that are legal now, unchanged. |
| Solver.PrunedWellFormed | main.py:181-183 | Phase 2 keeps the keys distinct and the entries well formed. |
| Solver.PruneStep | main.py:181-183 | One iteration over the key snapshot deletes the pair exactly when it is illegal. |
| Solver.WithDealEffect | main.py:184-185 | Phase 3 only appends. Afterwards the deal pair is stored exactly when it was before or the draw pile has cards. |
| Solver.ConsiderEffect | main.py:188-192 | One scan step appends at most one new, legal, weighted pair, and stores every legal pair it considers. |
| Solver.ScanRowEffect | main.py:187-192 | The inner loop only appends new legal pairs at their weights, and stores every legal pair from the source. |
| Solver.ScanFromEffect | main.py:186-192 | The outer loop does the same over all sources scanned. |
| Solver.DeleteWellFormed | main.py:194 | Deleting keeps the memory well formed. |
| Solver.DealEntryWeighsFour | main.py:184-185 | A stored deal pair weighs 4. |
| Solver.PreScanContents | main.py:178-185 | After phases 1 to 3, every entry is the deal at 4 or a legal pair the scan considers. The deal is stored exactly when the draw pile has cards. |
| Solver.RefreshedContents | main.py:178-192 | The refreshed memory has exactly the legal pairs and the deal entry, at weight 4, exactly when the draw pile has cards. |
| Solver.NoMovesOnlyWhenStuck | main.py:193 | `min` raises exactly when the draw pile is empty and no pair the scan considers is legal. |
| Solver.RefreshedReverse | main.py:178-180 | The legal reverse of the last move is stored at 99 and is not re-weighted. |
| Solver.RefreshedKeeps | main.py:181-192 | Any other entry that is still legal keeps its weight. |
| Solver.ChooseFirstMinimum | main.py:193-194 | The selected move is the first of least weight, and the memory keeps every other entry in order. |
| Solver.ChosenIsPlayable | main.py:195-198 | The selected move is a deal from a non-empty draw pile or a legal `move_pile`. Playing it keeps the board valid and, for two different piles, keeps every card. |
| Solver.AutoMove.constructor | main.py:166-169 | The solver starts with an empty memory and no last move. |
| Solver.AutoMove.Call | main.py:171-198 | On an empty refreshed memory: the error, with the game unchanged. Otherwise: the first move of least weight is removed, remembered and played on the game. |
| Solver.AutoMove.PlayBest | main.py:193-198 | Selects from the refreshed memory and plays the move. |
| Solver.AutoMove.Select | main.py:193-194 | Takes the chosen move out of the memory and remembers it; the game is unchanged. |
| Solver.AutoMove.Refresh | main.py:178-192 | The memory becomes `Refreshed` of the old memory and is playable. |
| Solver.AutoMove.Play | main.py:195-198 | Plays `deal` or `move_pile`, and the board becomes `Apply` of the old board. |
| Solver.AutoMove.ReinforceReverse | main.py:178-180 | Phase 1 as a method: the memory becomes `Reinforced`. |
| Solver.AutoMove.PruneIllegal | main.py:181-183 | The pruning loop leaves `Pruned` of the old memory. |
| Solver.AutoMove.PruneKey | main.py:182-183 | One pruning iteration keeps the loop invariant. |
| Solver.AutoMove.AddDeal | main.py:184-185 | Phase 3 as a method: the memory becomes `WithDeal`. |
| Solver.AutoMove.ScanMoves | main.py:186-192 | The outer scan loop leaves `ScanFrom` over all 12 sources. |
| Solver.AutoMove.ScanSource | main.py:187-192 | The inner scan loop leaves `ScanRow` over all 11 destinations. |
| Solver.CompleteGame | main.py:23-65 | The debug board has the board's shape. |
| Solver.CompleteGameValid | main.py:31-61 | The debug board is valid, and in its four full columns every card stacks on the one below. |
| Solver.CompleteGameHasAce | main.py:31-32 | Each Ace is on the debug board. |
| Solver.ColumnInGame | main.py:34-60 | Every card of a built column is on the debug board. |
| Solver.CompleteGameHasPicture | main.py:34-60 | Every card of value 2 to 13 is on the debug board. |
| Solver.CompleteGameHasCard | main.py:31-60 | Every card of value 1 to 13 is on the debug board. |
| Solver.CompleteGameHasEvery | main.py:23-65 | Every card of the full deck is on the debug board. |
| Solver.FiftyTwo | main.py:31-64 | Four draw cards, four columns of twelve, and empty piles make 52 cards. |
| Solver.CompleteGameSize | main.py:23-65 | The debug board holds 52 cards. |
| Solver.CompleteGameHoldsDeck | main.py:23-27 | The debug board holds exactly the full deck, each card once. |
| Solver.WeightMove | main.py:126-162 | A move weighs 0 exactly when it goes onto a foundation. It has no weight (the source's `IndexError`) only between tableau piles whose source has no face-up card. |
| Solver.Put | main.py:180 | `moves[k] = w` keeps the size when `k` is stored and adds one entry otherwise. Every entry for another key stays in its place. |
| Solver.Delete | main.py:183 | `del moves[k]` leaves no entry for `k` and never grows the memory. |
| Solver.Reinforced | main.py:178-180 | Phase 1 removes nothing and adds at most one entry. |
| Solver.Pruned | main.py:181-183 | Phase 2 keeps only pairs that `move_pile(..., move=False)` accepts, and never grows the memory. |
| Solver.WithDeal | main.py:184-185 | Phase 3 only appends, and at most one entry. |
| Solver.Consider | main.py:188-192 | One step of the scan only appends, and at most one entry. |
| Solver.ScanRow | main.py:187-192 | The inner loop only appends, at most one entry per destination. |
| Solver.ScanFrom | main.py:186-192 | The outer loop only appends, at most 11 entries per source. |
| Solver.Refreshed | main.py:178-192 | The memory a move is selected from has at most 134 entries more than the one kept from the last call. |
| Solver.Apply | main.py:195-198 | Playing the selected move keeps the board valid. A deal changes only the draw pile's divider. |
| LegacyCard.RankLetter | Solitare/card.py:11-23 | A rank letter exists exactly for values 1 to 13; 2 to 9 are their digits. |
| LegacyCard.RankLettersDistinct | Solitare/card.py:11-23 | Different ranks have different letters. |
| LegacyCard.Str | Solitare/card.py:10-24 | `str` is the rank letter, a space, the suit initial and a space. Outside 1 to 13 it raises `KeyError`. |
| LegacyCard.SuitInitialsDistinct | Solitare/card.py:24 | The four suit initials differ. |
| LegacyCard.StrDeterminesCard | Solitare/card.py:10-24 | Two cards with the same text are the same card. |
| LegacyCard.StrOfKingOfSpades | Solitare/card.py:10-24 | The King of Spades prints as "K S ". |
| LegacyCard.Repr | Solitare/card.py:7-8 | `repr` is the quoted `Value = v, Suit = s`. |
| LegacyCard.ReprDeterminesCard | Solitare/card.py:7-8 | Two cards with the same repr are the same card. |
| LegacyCard.ReprOfTenOfHearts | Solitare/card.py:7-8 | The Ten of Hearts gives `'Value = 10, Suit = Heart'`. |
| LegacyCard.Decimal | Solitare/card.py:7-8 | Python's `str` of an integer is non-empty and made of digits and a minus sign. |
| LegacyDeck.Deck.constructor | Solitare/deck.py:12-16 | `Deck()` builds the 52 cards, suit by suit. |
| LegacyDeck.Deck.Empty | Solitare/deck.py:11 | The deck starts empty before taking cards. |
| LegacyDeck.Deck.From | Solitare/deck.py:17-21 | `Deck(source, amount)` takes the last `amount` cards in the order dealt (none for `amount <= 0`). When `source` runs out first, it raises after emptying it. |
| LegacyDeck.Deck.Shuffle | Solitare/deck.py:41-42 | The deck takes the given order of the same cards. |
| LegacyDeck.Deck.Deal | Solitare/deck.py:44-45 | Removes and returns the last card. An empty deck raises. |
| LegacyDeck.TakenConserves | Solitare/deck.py:17-21 | The taken cards and the rest of the source are the source's cards. |
| LegacyDeck.TakenCount | Solitare/deck.py:18-20 | The guard never holds. The amount is taken as given, and nothing is taken for zero or less. |
| LegacyPile.LegacyDealPileRule | Solitare/solitare.py:5-18 | The older pile deals the same cards as the current one, all face down, with `flip` equal to the count. The two piles are equal exactly when the deck does not run dry. |
| LegacyPile.UpdatedKeepsFoundation | Solitare/solitare.py:30-33 | `update` leaves a pile whose divider is -1. |
| LegacyPile.CardPile.Empty | Solitare/solitare.py:11-12 | An empty pile has the divider -1. |
| LegacyPile.CardPile.Deal | Solitare/solitare.py:5-18 | The dealing loop leaves the pile and the deck `LegacyDealPile` describes. |
| LegacyPile.CardPile.Update | Solitare/solitare.py:30-33 | The pile's new value is `Updated` of its old value. |
| LegacyPile.CardPile.Pop | Solitare/solitare.py:35-36 | `pop` removes and returns the card at a Python index, and only that card. Outside the pile it raises and changes nothing. |
| LegacyPile.PyIndex | Solitare/solitare.py:35-36 | A Python index in range names a position inside the list. |
| LegacyPile.SliceStart | Solitare/solitare.py:155 | The start of `[i:]` lies within the list. It is `PyIndex` for an index in range, and `i` itself for 0 up to the length. |
| LegacyPile.LegacyDealPile | Solitare/solitare.py:13-18 | The older pile's divider equals its size. It takes `amount` cards when that is 1 to the deck's size, and leaves the bottom part of the deck. |
| LegacyRules.LegacyMovePile | Solitare/solitare.py:138-172 | An unmade `movepile` leaves the board. It raises only when `source[flip]` is outside the pile. |
| LegacyRules.LegacyMovePileNeedsFaceUp | Solitare/solitare.py:139-140 | With no face-up card, nothing moves. |
| LegacyRules.LegacyMovePileFromEmptyFoundation | Solitare/solitare.py:163-164 | From an empty foundation onto an empty pile, `source[-1]` raises. |
| LegacyRules.LegacyMovePileReflip | Solitare/Solitare.py:149-181 | The two older files report alike. A made move differs only in the turned-up source. |
| LegacyRules.LegacyMovePileConserves | Solitare/solitare.py:138-172 | `movepile` keeps every card, except for a run onto its own pile. |
| LegacyRules.LegacyMovePileKeepsValid | Solitare/solitare.py:138-172 | `movepile` keeps the older invariant, moved or not. |
| LegacyRules.UpdateAllOnlySource | Solitare/solitare.py:155-161 | When the other tableau tops are up, the current `_update` turns up the source alone, as the older `update` does. |
| LegacyRules.LegacyMovePileAsCurrent | Solitare/solitare.py:138-172 | On a settled board, a move to the tableau from the draw pile or another tableau pile is the same in the older and the current revision. |
| LegacyRules.SuitSlot | Solitare/solitare.py:183-187 | Each suit has its own foundation slot: Spade 0, Heart 1, Club 2, Diamond 3. |
| LegacyRules.LegacyMoveHome | Solitare/solitare.py:174-199 | An unmade `movehome` leaves the board. It raises only when the shown index is outside the pile. |
| LegacyRules.LegacyMoveHomeRule | Solitare/solitare.py:174-199 | A made `movehome` needs a face-up card and targets another pile, the suit's slot. That slot was empty with an Ace, or ended one below the card. |
| LegacyRules.LegacyMoveHomeEffect | Solitare/solitare.py:187-198 | A made `movehome` moves the card onto its suit's foundation; nothing else changes and no card is lost. |
| LegacyRules.LegacyMoveHomeKeepsValid | Solitare/solitare.py:174-199 | `movehome` keeps the older invariant. |
| LegacyRules.LegacyMoveHomeTurnsWaste | Solitare/solitare.py:189-193 | Taking the last waste card home turns up the card below it in solitare.py, but not in Solitare.py. |
| LegacyRules.LegacyCheckWin | Solitare/solitare.py:201-204 | `checkwin` is `True` exactly when the game is won; otherwise `None`, never `False`. |
| LegacyRules.LegacyInitialBoard | Solitare/solitare.py:40-50 | A new older game is a board of the right shape. |
| LegacyRules.LegacyInitialBoardIsCurrent | Solitare/solitare.py:40-50 | It is the current new game with the foundations' divider at -1. |
| LegacyRules.LegacyInitialBoardValid | Solitare/solitare.py:40-50 | It satisfies the older invariant and holds every card of the order. |
| LegacyRules.LegacyTableauPile | Solitare/solitare.py:43-46 | Each older tableau pile is dealt exactly as the current one. |
| LegacyRules.LegacyDealKeepsValid | Solitare/solitare.py:130-136 | `deal` keeps the older invariant and every card. |
| LegacyRules.Reflip | Solitare/solitare.py:191-192 | Turning up keeps every pile's cards. It changes no pile but the source, and none when `reflip` is off. |
| LegacyRules.ShownIndex | Solitare/solitare.py:178-182 | The index `movehome` reads is the top card of a non-empty pile other than the draw pile. For the draw pile it is the waste card, when there is one. |
| LegacyGame.PopOnto | Solitare/solitare.py:151-152 | `append(pop(index))` moves exactly that card, even onto the same pile. |
| LegacyGame.ExtendCut | Solitare/solitare.py:158-160 | `extend` then `del` moves the run, or cuts it when the pile is the same. |
| LegacyGame.ScanFrom | Solitare/solitare.py:155-157 | The scan loop finds `FirstStacking`. |
| LegacyGame.DealTableauPile | Solitare/solitare.py:43-46 | Makes pile n of a new game and leaves the rest of the deck. |
| LegacyGame.DealTableau | Solitare/solitare.py:43-46 | Makes seven distinct new piles, as dealt. |
| LegacyGame.EmptyHomes | Solitare/solitare.py:49 | Makes four distinct new empty foundations with divider -1. |
| LegacyGame.NewPiles | Solitare/solitare.py:40-50 | Makes distinct new piles with the values of a new deal. |
| LegacyGame.Solitare.constructor | Solitare/solitare.py:40-50 | A new game is a valid board equal to `LegacyInitialBoard`. |
| LegacyGame.Solitare.UpdateTableau | Solitare/solitare.py:47-48 | `update` of each tableau pile is `UpdateAll`. |
| LegacyGame.Solitare.Deal | Solitare/solitare.py:130-136 | The board becomes `DealBoard` of the old board and stays valid. |
| LegacyGame.Solitare.TransferCard | Solitare/solitare.py:151-152 | Acts as `MoveCardOn` at the Python index. |
| LegacyGame.Solitare.TransferCardWithin | Solitare/solitare.py:151-152 | As `TransferCard`, for a pile onto itself. |
| LegacyGame.Solitare.TransferCardAcross | Solitare/solitare.py:151-152 | As `TransferCard`, between two different piles. |
| LegacyGame.Solitare.TransferRun | Solitare/solitare.py:158-160 | Acts as `MoveCardsOn`. |
| LegacyGame.Solitare.TurnUp | Solitare/solitare.py:161 | `update` of the source is `Reflip`. |
| LegacyGame.Solitare.MovePile | Solitare/solitare.py:138-172 | Returns the verdict of `LegacyMovePile` with `reflip`, leaves its board, and keeps the board valid. |
| LegacyGame.Solitare.MoveWasteCard | Solitare/solitare.py:145-153 | The same contract, from the draw pile onto a non-empty pile. |
| LegacyGame.Solitare.MoveRun | Solitare/solitare.py:154-162 | The same contract for the run scan. |
| LegacyGame.Solitare.MoveKing | Solitare/solitare.py:163-172 | The same contract onto an empty pile. |
| LegacyGame.Solitare.MoveHome | Solitare/solitare.py:174-199 | Returns the verdict of `LegacyMoveHome` with `reflip`, leaves its board, and keeps the board valid. |
| LegacyGame.Solitare.CommitHome | Solitare/solitare.py:189-198 | Making a legal `movehome` moves the card and turns up the source. |
| LegacyGame.Solitare.CheckWin | Solitare/solitare.py:201-204 | Equals `LegacyCheckWin` of the board. |
| LegacyNamedGame.TurnUpTableau | Solitare/Solitare.py:43-56 | Turns up each tableau pile once. |
| LegacyNamedGame.NewNamedPiles | Solitare/Solitare.py:40-61 | Dealing and turning up each pile one by one gives `LegacyInitialBoard`. |
| LegacyNamedGame.TwelvePiles | Solitare/Solitare.py:40-61 | The twelve distinct new piles, in field order, form `LegacyInitialBoard`. |
| LegacyNamedGame.Solitare.constructor | Solitare/Solitare.py:40-61 | A new game is a valid board equal to `LegacyInitialBoard`. |
| LegacyNamedGame.Solitare.Deal | Solitare/Solitare.py:141-147 | The board becomes `DealBoard` of the old board and stays valid. |
| LegacyNamedGame.Solitare.TransferCard | Solitare/Solitare.py:162-163 | Acts as `MoveCardOn` at the Python index. |
| LegacyNamedGame.Solitare.TransferCardWithin | Solitare/Solitare.py:162-163 | As `TransferCard`, for a pile onto itself. |
| LegacyNamedGame.Solitare.TransferCardAcross | Solitare/Solitare.py:162-163 | As `TransferCard`, between two different piles. |
| LegacyNamedGame.Solitare.TransferRun | Solitare/Solitare.py:169-171 | Acts as `MoveCardsOn`. |
| LegacyNamedGame.Solitare.MovePile | Solitare/Solitare.py:149-181 | Returns the verdict of `LegacyMovePile` without `reflip`, leaves its board, and keeps the board valid. |
| LegacyNamedGame.Solitare.MoveWasteCard | Solitare/Solitare.py:156-164 | The same contract from `pile0` onto a non-empty pile. |
| LegacyNamedGame.Solitare.MoveRun | Solitare/Solitare.py:165-172 | The same contract for the run scan. |
| LegacyNamedGame.Solitare.CommitRun | Solitare/Solitare.py:169-171 | Making a legal run move acts as `MoveCardsOn` and keeps the board valid. |
| LegacyNamedGame.Solitare.CommitCard | Solitare/Solitare.py:162-163 | Making a legal one-card move acts as `MoveCardOn` and keeps the board valid. |
| LegacyNamedGame.Solitare.MoveKing | Solitare/Solitare.py:173-180 | The same contract onto an empty pile. |
| LegacyNamedGame.Solitare.MoveHome | Solitare/Solitare.py:183-206 | Returns the verdict of `LegacyMoveHome` without `reflip`, leaves its board, and keeps the board valid. |
| LegacyNamedGame.Solitare.CommitHome | Solitare/Solitare.py:198-205 | Making a legal `movehome` moves the card onto the suit's foundation. |
| LegacyNamedGame.Solitare.CheckWin | Solitare/Solitare.py:208-211 | Equals `LegacyCheckWin` of the board. |

## Left out

- Shuffling: the random order of `random.shuffle` is a parameter. Any order of the same cards is allowed.
- Rendering: these are outside the model.
  - the board's `__str__` in all three revisions;
  - the ANSI colours and text of the current `Card.__str__` and `__repr__`. Only the colour choice is modelled, as `Cards.IsRed`.
- Solitare/deck.py `__str__`/`__repr__`: they add a string to a card and would raise. They are not modelled.
- `Deck(cards)` and `add_card` in Solitaire/playing_cards.py: their `is type(Card)` test never accepts a card, so they are dead paths. They are not modelled.
- The interactive drivers: the two `__main__.py` files, `run_game`, `move`, `set_input_dict` and the undo stack of main.py. These are `input`, `print`, `sleep` and `deepcopy`.
- The `print` in `CardPile.__init__` when the deck runs dry: only the truncation of the deal is modelled.
- Legacy suits: the older `Card` takes any suit text, and the foundation lookup raises `KeyError` for any other suit. The model's cards carry one of the four suits, so these paths are not modelled.
- `AutoMove.first_cycle`: set in `__init__` and never read.
- Solver.AutoMove.Call: the memory is keyed by `PileId` pairs rather than by pile objects. The probes `move_pile(..., move=False)` are `CanMovePile` on the board, which `Game.Solitaire.MovePile` computes without change.
- Solver.WeightMove: where the source would raise `IndexError`, the result is `None`. `WeightOfLegalMove` shows that no legal move reaches that case.
- weight_move's docstring gives weight 4 to a foundation-to-tableau move and 5 to the deal. The code does the opposite, and the model follows the code (`Solver.DealWeighsFour`, `Solver.WeightOfLegalMove`).
- move_home's docstring names a fixed foundation per suit. The code takes the foundation already holding the suit, else the first empty one, and the model follows the code (`Rules.HomeTargetChoice`).
- LegacyGame.Solitare.MovePile and LegacyNamedGame.Solitare.MovePile: the source passes pile objects. The model passes `PileId`s, so a pile that is not on the board cannot be passed.
- LegacyRules.LegacyCheckWin: the implicit `None` return is `Option.None`.
- Game.Solitaire.MovePile: the path that falls off the end and returns `None` is `false`.
- Game.Solitaire.MoveHome: the `TypeError` from `len(None)` when no foundation fits is the error result `NoFoundation`.
- CardPiles.CardPile.MoveCard requires an index inside the source pile. The `IndexError` of `pop` outside it is not modelled, since every caller passes a face-up index.
- CardPiles.CardPile.MoveCards requires an index from 0 to the pile's length. Python's negative slice starts are not modelled, since every caller passes a face-up index.
- Rules.MovePileKeepsValid and Solver.ChosenIsPlayable: card conservation is stated except for a run moved onto its own pile. There the source itself loses cards (`Rules.MoveCardsOntoItself`, `Rules.OwnPileRunLosesCards`). The corrected `Rules.MovePileChecked` keeps them.
- Cards.NewCard: card values are integers. Line 31 of Solitaire/playing_cards.py accepts any number with `0 < value < 14`, such as 1.5, but its docstring gives the value as `int`.
- LegacyDeck.Deck.From: the guard on line 18 of Solitare/deck.py can never hold. It is modelled as written by `LegacyDeck.TakenCount`: an amount of zero or less takes nothing.

## Findings

| source | as written | input that shows it | evidently intended | confidence | as-written member | corrected member |
|---|---|---|---|---|---|---|
| Solitaire/playing_cards.py:36 | The suit check also accepts a suit name followed by 's'. | `Card(1, 'Spades')` is accepted, while the test at line 233 expects `ValueError`. | Only the four singular names 'Spade', 'Heart', 'Club', 'Diamond' are accepted. | not executed | Cards.PluralSuitAcceptedAsWritten | Cards.NewCard |
| Solitaire/solitaire.py:97-98 | `move_pile(p, p)` for a tableau pile `p` is legal when a face-up card of `p` goes on its own top card (lines 219-227). `move_cards` then extends `p` with the run and cuts from the same index, which removes the run. main.py:186-192 probes every such pair. | Pile 2 of Hearts, Ace, 2, 3 of Spades, all face up. It arises when a Spade foundation of A, 2, 3 is moved onto a 2 of Hearts. `move_pile(p, p)` empties it. | A pile is never moved onto itself, and every move keeps all 52 cards. | not executed | Rules.OwnPileRunLosesCards | Rules.MovePileChecked |
