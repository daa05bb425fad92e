# Palace card game: turn engine in Dafny

A model of the game logic in `app.py`, a console game of the shedding card
game Palace (also known as Shithead) for two or more players. It covers:

- the 52-card deck and its `draw`;
- reading a chosen rank from a typed token (`"7"`, `"q"`, `"A"`);
- a player's hand, table cards and secret cards, with `initial_draw`, `draw`,
  the selection step of `choose_table_cards` and `play_card`;
- one pass of the turn loop of `Game.start`: the secret-card reveal, the
  ceiling set by a 7 (a 3 is exempt), the rank effects of 10, 8, 7, 2 and 3,
  the check that removes a player who has run out of cards, and the
  `skip_next` test before a player's turn.

The model follows the code as written. Where the code and the game's
description differ, the code wins:

- The chosen card leaves the hand, and a card is drawn, before the ceiling
  check (app.py:110-112, 149-151). A card above the ceiling is lost: it never
  reaches the pile (`Turn.CeilingGuard`, `Turn.AttemptAccounting`). So with
  2 and 7 on the pile, a 9 played next is turned down and the pile stays
  [2, 7] (`Turn.NineAfterSevenIsLost`). The game's description says the
  pile would end as [2, 7, 9].
- A player who picks up the pile keeps the turn and plays again
  (app.py:142-146). The description says the turn ends there.
- A 3 played onto a non-empty pile is overwritten by a copy of the card
  under it (app.py:176-177). The length test runs after the 3 is appended
  (app.py:153), so this happens even on a one-card pile: [5] becomes [5, 5].
  The pile gains a duplicate of that card and loses the 3. The game's
  description says a 3 played as the second card keeps its own value.
- A player is checked for running out of cards, and removed, only after a
  10 (app.py:187-192). After any other card the turn ends first.
- A player with an empty hand who faces an empty pile, and has table cards
  left (or no secret cards), picks up the empty pile and plays again with
  nothing changed, forever (`Turn.EmptyHandedPlayerLoops`). The program
  reaches this: table cards are never played, so a player whose last hand
  card is a 10 with the deck empty burns the pile, is not removed, keeps the
  turn and hangs (`Turn.LastTenHangs`). A player removed after a 10 would
  also keep the turn, with no cards, and hang the same way.
- `secret_cards` is never filled, `table_cards` are never played, and
  `Player.draw` is never called by `Game`. The model keeps these operations
  and proves them on their own.

Files:

- `options.dfy`: `Option`.
- `lists.dfy`: the Python list operations used (`pop`, `remove`, repeated
  `pop`).
- `cards.dfy`: cards, the standard deck and the value labels of
  `Card.__repr__`.
- `tokens.dfy`: the token-to-rank mapping.
- `rules.dfy`: the player's operations as functions of the lists they change.
- `turn.dfy`: one pass of the turn loop as a function of the game state.
- `engine.dfy`: the classes `Deck`, `Player` and `Game`. Their methods update
  fields in place, and each method's contract ties the new state to the
  functions of `rules.dfy` and `turn.dfy`.

Python's `card_value == 'J'` comparison of an `int` with a `str` becomes a
`Choice` value that is either a number or a word, and only a number names a
card (`Tokens.Names`). `Card` is a value compared by suit and value. In a
standard deck no two cards are equal, so this agrees with Python's identity
comparison in `valid_cards` and `remove`.

## Model

| member | source | states |
|---|---|---|
| `Cards.FullDeckIsStandard` | app.py:22 | the deck built has 52 cards: every suit with every value 2..14, all distinct |
| `Tokens.ParseLabel` | app.py:9-17 | for every value 2..14, the label `__repr__` shows, in upper or lower case, parses back to that value |
| `Tokens.ParseIgnoresCase` | app.py:94-103 | a token parses the same after upper- or lower-casing |
| `Tokens.NumberOfDigitsOf` | app.py:49-50 | the decimal digits of a number are all digits and parse back to the number |
| `Engine.Deck.constructor` | app.py:21-23 | a deck is a given order (any shuffle) of the 52 standard cards |
| `Engine.Deck.Draw` | app.py:25-26 | pops and returns the last card; an empty deck returns nothing and stays empty |
| `Engine.Player.constructor` | app.py:29-33 | a new player has the given name and no cards |
| `Engine.Player.InitialDraw` | app.py:35-37 | the hand gains the six cards popped from the deck, in pop order, and the deck loses them |
| `Engine.Player.Draw` | app.py:39-41 | the hand gains the cards popped until it holds three or the deck is empty (`TopUpCount` of them), and the deck loses them |
| `Rules.TopUpStops` | app.py:39-41 | topping up stops at three cards or an empty deck, takes no card past the third, and keeps hand plus deck the same multiset |
| `Lists.PoppedConserves` | app.py:26 | popped cards plus what is left of the list are the list's cards |
| `Lists.RemovedOne` | app.py:68 | `remove` of a present card shortens the list by one and takes away exactly one copy |
| `Lists.RemovedAt` | app.py:110 | removing a card whose first occurrence is at position i cuts out position i |
| `Rules.FirstWithValue` | app.py:63 | the result is the first hand position whose card the choice names, and it is missing exactly when no card is named |
| `Engine.FindFirst` | app.py:105 | the loop finds the same position as `FirstWithValue` |
| `Engine.Player.ChooseTableCard` | app.py:63-69 | the hand and table cards become what `SelectTable` gives, and the secret cards are untouched |
| `Rules.SelectTableMoves` | app.py:63-69 | a card moves iff some hand card is named; the first named card goes to the end of the table cards, the hand loses exactly it, hand plus table is unchanged as a multiset, and an unheld value changes nothing |
| `Rules.ValidCards` | app.py:80-81 | a card is in the result iff it is in the hand and is valid on the pile |
| `Rules.ValidCardsAppend` | app.py:80-81 | the filter of two stretches of a hand is the filter of each, one after the other |
| `Engine.Player.ValidHandCards` | app.py:80-81 | the loop builds exactly `ValidCards` of the hand |
| `Rules.SpecialCardsAlwaysPlayable` | app.py:80-81 | a 2 or a 3, or any card on an empty pile, is always valid |
| `Engine.Player.PlayCard` | app.py:77-113 | hand, pile and deck become what `Play` gives for the choice, and table and secret cards are untouched |
| `Rules.PlayPicksUp` | app.py:83-87 | the player picks up iff no hand card is valid; the hand then gains the whole pile, the pile empties and the deck is untouched |
| `Rules.PlayPlays` | app.py:105-113 | a played card is valid and is the first hand card named; exactly that occurrence leaves the hand, the pile is untouched, and one card is drawn iff the deck was not empty |
| `Rules.PlayReprompts` | app.py:105-108 | a choice is turned down iff some card is valid but the first named card is missing or not valid; nothing changes |
| `Rules.PlayConserves` | app.py:83-113 | `play_card` keeps hand plus pile plus deck, together with the card it returns, the same multiset |
| `Rules.RefillConserves` | app.py:110-112 | removing the played card and drawing one keeps hand plus deck, with that card, the same multiset |
| `Engine.Player.RevealSecret` | app.py:138-139 | with hand and table empty, the last secret card moves to the hand; otherwise nothing changes |
| `Turn.RevealMovesOneSecret` | app.py:187-188 | the reveal moves at most one secret card into the hand and loses no card |
| `Engine.Game.constructor` | app.py:119-123 | a new game has one fresh, empty player per name in order, the given deck, an empty pile and no ceiling |
| `Engine.Game.TurnAttempt` | app.py:137-197 | for a player in `players`, or one already removed and holding no card, player, deck, pile, ceiling and `skip_next` become what `Attempt` gives; the player leaves `players` exactly when a 10 left them with no cards |
| `Engine.Game.Accept` | app.py:153-197 | an accepted card goes on the pile and takes effect as `Resolve` says, and removes the player exactly as above |
| `Turn.CeilingGuard` | app.py:149-151 | a card is accepted iff it was played and is not above a set ceiling (a 3 is exempt); a card above the ceiling leaves pile, ceiling and flag as they were |
| `Turn.CeilingUpdates` | app.py:161-185 | an accepted 7 sets the ceiling to 7, any other card that ends the turn clears it, and a pass that keeps the turn leaves it alone |
| `Turn.NoBurnUnderSeven` | app.py:157-160 | with the ceiling at 7, a 10 is never accepted |
| `Turn.TenBurns` | app.py:157-160 | a 10 empties the pile, keeps the turn, and removes the player exactly when they have no cards left |
| `Turn.PileAfterPlay` | app.py:170-182 | a 2 leaves the pile as just itself; a 3 on a non-empty pile adds one card equal to the old top; a 3 on an empty pile stays alone; other cards are added on top |
| `Turn.EightSkipsNext` | app.py:161-165 | `skip_next` becomes set exactly on an 8 (or stays set); after an 8 the ceiling is clear, the next player is passed over and the one after plays |
| `Turn.SkipCheck` | app.py:134-136 | a player is passed over exactly when the flag is set, and the flag is clear afterwards |
| `Turn.PickupKeepsTurn` | app.py:142-146 | the player takes the pile iff no hand card is valid; the hand gains the pile, the pile empties, the same player goes again, and table, secret cards, deck, ceiling and `skip_next` are unchanged |
| `Turn.AttemptAccounting` | app.py:138-197 | where every card goes: a turned-down choice and a pickup move cards; a card over the ceiling is lost; a 10 takes itself and the pile away; a 2 drops the old pile; a 3 on a non-empty pile becomes a copy of the old top; any other card moves |
| `Turn.MovedConserves` | app.py:140 | once `play_card` returns, the cards on the board are the ones before, minus the card it returned |
| `Turn.EmptyHandedPlayerLoops` | app.py:142-146 | a player with an empty hand, no secret card to reveal and an empty pile picks it up and goes again with nothing changed |
| `Turn.LastTenHangs` | app.py:187-197 | with the deck empty, a last hand card 10 with table cards left burns the pile, keeps the turn without removal, and then every pass is a pickup of the empty pile |
| `Turn.NineAfterSevenIsLost` | app.py:149-151 | with 2 then 7 on the pile, a 9 is turned down and lost, and the pile stays [2, 7] |

## Left out

- Shuffling (app.py:23) is random. The deck constructor takes any order of the 52 cards.
- Console input and output are left out, including the `try`/`except ValueError` re-prompt loops (app.py:44-75, 78-115). Each operation takes the chosen token already parsed as a `Choice`. A turned-down choice ends the modelled pass with state unchanged (`Reprompt`), where the program would ask again.
- The loop over three selections in `choose_table_cards` (app.py:45) is left out. One accepted selection is modelled, and the program repeats it three times.
- The outer game loops (app.py:126-133) are left out: the setup loop that calls `initial_draw` and `choose_table_cards`, and `while self.players` / `for player in self.players`. Their termination is not guaranteed, and `players.remove` during iteration depends on Python's list iterator. The model covers one pass of the turn loop and the `skip_next` test.
- Suit names and the f-string of `__repr__` (app.py:18) are cosmetic. Only the value label is modelled.
- `isdigit` and `upper` are modelled for ASCII only. Other Unicode digits and case mappings are not modelled.
- Engine.Player.InitialDraw: requires six cards in the deck. The program would append `None` to the hand for each missing card and fail later.
- Engine.Game.TurnAttempt: requires the player to be in `players` or to hold no card. A removed player keeps the turn (app.py:192-195) and runs further passes; holding no card, they can only pick up and never reach `players.remove`.
- `keep_turn` is kept local to one pass. It is set on a 10 (app.py:160) and cleared in the same pass (app.py:195), and nothing else sets it.
