# Fodinha rules engine in Dafny

This project models the rules engine of the trick-taking card game Fodinha
(`simple_input_logic.py`): the cards and their fixed strength ranking, the
`Player` object with its hand and lives, and the `Lobby` state machine that
registers players, prepares each gameturn (fresh shuffled deck, the face-up
beforemanilla, the number of tricks, dealer rotation, dealing one card per
life), takes the bids with the "pé" rule, plays the cards, resolves each trick
(manilla, highest color among several manillas, cancellation of duplicated
strengths, the accumulating win value) and settles the gameturn by life losses.

The project is organised in layers:
- `base.dfy`: Python's `None`, `count`, `max`, `sum`, `remove` and `index` on lists.
- `cards.dfy`: colors, cards, the strength ranking and the deck.
- `seats.dfy`: cyclic seat arithmetic (the dealer and next-player scans, the alive order) and the trick count.
- `tricks.dfy`: trick resolution. It also holds the as-written manilla scan of the finding below.
- `game.dfy`: the Lobby as a function on a value `GameState` (one field per attribute of the Lobby, players as `Seat(lives, cards)`). Each operation is a function returning the new state and a `Status`. An exception becomes `Fail(e)`; the state is then unchanged, except where "## Left out" says otherwise. The game's properties are proved about these functions.
- `lobby.dfy`: the objects as the source updates them in place.
  - `class Player` with `numberOfLives` and `cards`.
  - `class Lobby` with one field per attribute. Each method that changes the game is proved to move the snapshot `State()` exactly as the `game.dfy` function its Model row names: Guess as GuessStep, Play as PlayStep, StartGame as Start, CloseGameturn as Settle, and so on. Each property proved about that function therefore holds of the objects.
  - The small helpers are specified instead by their effect on the fields or the part of the snapshot they change: GenerateNewDeck, SetNextDealerId, SetNextPlayerId, ShuffleDeck, Draw, DrawBeforemanilla, SetCurrentNumberOfTurns, SetFirstTurnType, DealSeat, DealHand, LoseLives, ApplyLifeLosses, AppendBid and PlayFromHand.
  - A ghost field `seats` mirrors the players' lives and hands. `Valid()` ties the mirror to the `Player` objects.

`random.shuffle` is a parameter: `perm`, a permutation of 0..51 applied to the
freshly generated deck (`ShuffleDeck`). Python's `None` for
`current_player_id`, `current_number_of_turns` and `current_turn_number`
before the first gameturn is -1, 0 and 0 respectively. The turn type is an
`Option<TurnType>`. `list.pop(i)` is modelled with Python's negative indices
(`PyIndex`), not restricted to `0 <= i < len`. Bids are unrestricted integers,
as the source never checks them.

## Model

| member | source | states |
|---|---|---|
| Cards.StrengthFollowsLadder | simple_input_logic.py:29-73 | `real_value` numbers the values 3,4,...,10,Q,J,K,A,2 as 1..13, so it maps 1..13 one-to-one onto 1..13 in that order |
| Cards.Strength | simple_input_logic.py:63-73 | `real_value` is a strength in 1..13, and the 2 alone has the top strength 13 |
| Cards.NewCard | simple_input_logic.py:52-62 | the constructor succeeds exactly for values in [1,13] (otherwise ValueError with the value); a new card has that value and color, no owner, and a strength in 1..13 |
| Cards.DeckUpToAt | simple_input_logic.py:167-176 | after the loop has run over values 1..v the deck has 4v cards, position i holding value i/4+1 in the (i%4)-th color of Hearts, Spades, Diamonds, Clubs |
| Cards.DeckUpToFull | simple_input_logic.py:167-176 | the loop over all thirteen values builds exactly the 52-card deck `FullDeck` |
| Cards.FullDeckOnePerCard | simple_input_logic.py:167-176 | the generated deck has 52 ownerless cards, pairwise distinct, and contains every (value, color) |
| Cards.ShuffledDeckDistinct | simple_input_logic.py:536-539 | any shuffle of the fresh deck still has 52 distinct ownerless cards |
| Base.Max | simple_input_logic.py:263 | `max` of a non-empty list is an entry and bounds every entry |
| Base.Count | simple_input_logic.py:264 | `list.count(x)` is at most the list's length, and positive exactly when x occurs in the list |
| Base.Sum | simple_input_logic.py:462 | `sum` of a list of non-negative entries is non-negative |
| Base.RemoveFirst | simple_input_logic.py:269 | `list.remove(x)` takes out exactly one occurrence of x |
| Base.IndexOf | simple_input_logic.py:341 | `list.index(x)` is the first position holding x |
| Seats.Cyc | simple_input_logic.py:181 | the seat k places after `from` is Python's `(from + k) % n` and a seat |
| Seats.NextOffset | simple_input_logic.py:178-204 | the least offset whose seat is flagged, with no flagged seat in between |
| Seats.NextSeat | simple_input_logic.py:178-204 | the first flagged seat strictly after `from` in cyclic order: flagged, and every seat passed over is unflagged |
| Seats.NextSeatAt | simple_input_logic.py:178-204 | a scan that first finds a flagged seat k places on has found `NextSeat` |
| Seats.AliveOrder | simple_input_logic.py:415-420 | the loop listing alive seats from the dealer: only alive seats, in strictly increasing position from the dealer, and every alive seat among the first k |
| Seats.AliveOrderDistinct | simple_input_logic.py:415-420 | no seat is listed twice |
| Seats.CycStep | simple_input_logic.py:420 | `(seat + 1) % n` advances the cyclic position by one |
| Seats.CountTrue | simple_input_logic.py:227-242 | the count is at most the number of seats, and positive exactly when some seat is flagged |
| Seats.TurnCount | simple_input_logic.py:261-270 | the trick count computed by set_current_number_of_turns is one of the players' lives and at most the largest |
| Seats.TurnCountIsSecondLargest | simple_input_logic.py:256-272 | the trick count occurs among the lives, is at most the maximum, at least two seats have that many lives or more, and at most one seat has more |
| Seats.TurnCountPositive | simple_input_logic.py:256-272 | with two seats holding a life, a gameturn has at least one trick |
| Tricks.ManillaIsSuccessor | simple_input_logic.py:319-323 | the manilla is the cyclic successor of the beforemanilla's strength on 1..13 |
| Tricks.Manilla | simple_input_logic.py:320-323 | for a beforemanilla strength in 1..13, the manilla's strength is in 1..13 and differs from it |
| Tricks.BestManilla | simple_input_logic.py:330-337 | the position of a manilla of the highest color (None exactly when there is no manilla) |
| Tricks.HighestUnique | simple_input_logic.py:344-352 | the position of the highest strength that occurs exactly once, None exactly when every strength is repeated |
| Tricks.Resolve | simple_input_logic.py:317-361 | over the played cards' real values (:326): with a manilla, the winner is a manilla of the highest color; without one, the pile is cancelled exactly when every strength is repeated, and otherwise the highest unrepeated strength wins |
| Tricks.SingleManilla | simple_input_logic.py:338-342 | a single manilla in the pile is the best manilla |
| Tricks.AsWrittenMisawardsManilla | simple_input_logic.py:333-336 | the scan as written gives the trick to the Diamonds manilla's owner where the Spades manilla should win |
| Tricks.AsWrittenRaisesIndexError | simple_input_logic.py:333-336 | the scan as written indexes the pile by an owner id and can leave its bounds |
| Tricks.AsWrittenManillaScan | simple_input_logic.py:333-336 | the loop as written (owner id reused as a pile position): while every card has an owner, it keeps `winner_owner` None exactly when no scanned card is a manilla |
| Game.Initial | simple_input_logic.py:137-165 | a new lobby has no players, no turn type, dealer -1, win value 1, and satisfies the invariant |
| Game.Register | simple_input_logic.py:244-254 | registration succeeds exactly when a seat is free, adding a player with 5 lives and no cards; a full lobby reports LobbyFull and is unchanged |
| Game.Drawn | simple_input_logic.py:531-534 | k draws give a hand of k cards, each owned by the drawer |
| Game.DrawnSnoc | simple_input_logic.py:531-534 | each further draw appends the next card from the top of the deck |
| Game.DealtHand | simple_input_logic.py:393-398 | after dealing, seat j keeps its lives and holds one card per life, all owned by j |
| Game.DealtCards | simple_input_logic.py:393-398 | the dealt hands hold together as many cards as the seats have lives |
| Game.Zeros | simple_input_logic.py:276 | `[0 for _ in range(n)]` has n zeros |
| Game.Deal | simple_input_logic.py:393-398 | every seat keeps its lives and holds one owned card per life; the deck shrinks by exactly the cards dealt |
| Game.DealtUpTo | simple_input_logic.py:393-398 | the seats once the dealing loop has served seats[..i]; same number of seats |
| Game.DealtUpToNext | simple_input_logic.py:393-398 | serving seat i changes that seat alone, into its dealt hand |
| Game.DealtUpToAll | simple_input_logic.py:393-398 | once every seat is served, the seats are exactly the dealt hands |
| Game.DealKeepsLives | simple_input_logic.py:393-398 | dealing changes no seat's lives or aliveness |
| Game.LivesSumBounds | simple_input_logic.py:393-398 | with lives in 0..5, the first i seats need between 0 and 5i cards, so 51 cards suffice for 10 players |
| Game.ShuffledDeck | simple_input_logic.py:536-539 | a shuffled deck has 52 cards |
| Game.NewTable | simple_input_logic.py:373-391 | the steps before dealing keep the seats and leave 51 cards in the deck |
| Game.DealStep | simple_input_logic.py:393-398 | the dealing loop keeps every seat's lives and aliveness |
| Game.Prepare | simple_input_logic.py:373-406 | a prepared gameturn keeps the invariant, every seat is taken, bidding is open, there are no bids yet, and the dealer acts first |
| Game.PrepareDeals | simple_input_logic.py:373-406 | one card per life in each hand; deck + beforemanilla + hands = 52; trick count from all players' lives (dead count as 0); trick counter 0; wins all zero; the win value and the pile are carried over; final bidding exactly when two are alive |
| Game.PrepareRotatesDealer | simple_input_logic.py:178-191 | the new dealer is alive and every seat between the old dealer and the new one is dead |
| Game.Start | simple_input_logic.py:545-552 | refused (NotAllJoined, lobby unchanged) until every seat is taken; otherwise the new state is exactly the prepared gameturn `Prepare(s, perm)` (see Left out for the all-dead case) |
| Game.ApplyLossesFacts | simple_input_logic.py:425-431 | each listed seat loses exactly abs(bid - wins) lives down to 0; no hand changes; no count of lives grows; a dead seat stays as it was |
| Game.LoseLife | simple_input_logic.py:108-111 | the hand is kept and the lives stay non-negative; an affordable loss takes exactly that many lives, a loss of all remaining lives or more leaves 0 |
| Game.ApplyLosses | simple_input_logic.py:425-431 | the zip loop over the first k (player, guess) pairs keeps the number of seats; what each seat loses is stated by ApplyLossesFacts |
| Game.BidOrder | simple_input_logic.py:415-420 | the alive players, distinct, in increasing position from the dealer, every alive player included |
| Game.SettledSeats | simple_input_logic.py:408-431 | the life losses keep every hand and never raise a count of lives or make it negative |
| Game.SettledSeatsLoseMisses | simple_input_logic.py:415-431 | the t-th bidder from the dealer loses as many lives as their t-th bid missed their wins by (down to 0); dead players are untouched |
| Game.AfterLosses | simple_input_logic.py:408-431 | only the seats change, to the settled seats, and the invariant holds |
| Game.Settle | simple_input_logic.py:408-439 | the phase becomes GAME_OVER exactly when at most one player is left alive or this was the final gameturn; otherwise a new gameturn's bidding is open; a finished game is the lobby after the losses with phase GAME_OVER, otherwise the state is exactly `Prepare` of the lobby after the losses |
| Game.Award | simple_input_logic.py:317-367 | a cancelled pile raises the win value by 1 and changes no wins; otherwise the owner of the winning card (a seat) gains the win value, and the value returns to 1 |
| Game.AwardAddsWinValue | simple_input_logic.py:360-367 | the wins together grow by exactly the win value when the trick has a winner, and not at all when it is cancelled |
| Game.UpdateWins | simple_input_logic.py:317-367 | only the wins and the win value change, to exactly `Award`'s tally of the played pile (resolved against the beforemanilla's real value), and the invariant holds |
| Game.Rewind | simple_input_logic.py:299-315 | only the current player changes: to the dealer if they hold cards, otherwise the first card holder after the dealer; NoPlayerWithCards exactly when nobody holds a card |
| Game.CountTrick | simple_input_logic.py:278-286 | the trick counter grows by 1, the pile is emptied, and the wins and win value become `Award`'s tally of the pile that was played; nothing else changes |
| Game.CloseTurn | simple_input_logic.py:278-297 | the trick is counted and awarded (`CountTrick`); when the counter reaches the trick count the result is exactly `Settle` of that state with status Ok (game over or new bidding), otherwise exactly `Rewind` of it, with play continuing and the counter one higher |
| Game.GuessStep | simple_input_logic.py:441-476 | WrongPhase, NotYourTurn and PlayerDead refusals leave the state unchanged; ForbiddenGuess exactly for a last bid that makes the total equal the trick count; a bid is accepted exactly when it is a guess turn, it is the bidder's turn, the bidder is alive and the bid is not forbidden; a bid appends the guess, only the last bid moves GUESS to PLAY or FINAL_GUESS to FINAL_PLAY, and the turn moves to the next card holder |
| Game.Bid | simple_input_logic.py:458-476 | refused (unchanged) exactly for a last bid that makes the total equal the trick count; otherwise the guess is appended and a card holder is next |
| Game.BidsNeverMatchTricks | simple_input_logic.py:458-476 | when bidding closes, every alive player has bid and the bids do not add up to the trick count |
| Game.PyIndex | simple_input_logic.py:98-100 | `list.pop(i)` accepts exactly -len <= i < len and removes position i or len + i |
| Game.RemoveAt | simple_input_logic.py:98-100 | the hand without the card at i, the rest in order; as multisets the hand loses exactly that card |
| Game.PlayCard | simple_input_logic.py:502-513 | the card leaves the player's hand and is appended to the pile; nothing else changes |
| Game.CardsSumUpdate | simple_input_logic.py:502-513 | replacing one hand changes the cards held by exactly the difference |
| Game.PlayCardKeepsCards | simple_input_logic.py:502-513 | a played card moves from a hand to the pile: hands plus pile hold as many cards as before |
| Game.PlayStep | simple_input_logic.py:478-529 | WrongPhase, NotYourTurn, PlayerDead, NoCards and BadCardIndex refusals leave the state unchanged; the play goes through exactly for the current living player with an index `pop` accepts; what an accepted play then does (close the trick through `CloseTurn`, or pass the turn) is stated by PlayClosesTrickExactly |
| Game.Advance | simple_input_logic.py:515-529 | when the trick closes the result is exactly `CloseTurn` (award, then settle or rewind) and the pile is emptied; otherwise only the current player changes, to the next seat holding cards |
| Game.AsWrittenDealerPlaysTwice | simple_input_logic.py:206-209 | with the seat after the current player holding no cards, the trick stays open and the dealer, who led it, is to play a second card into it |
| Game.PlayClosesTrickExactly | simple_input_logic.py:502-529 | after an accepted play the pile is emptied exactly under the three closing conditions, and a closing play is then exactly `CloseTurn` of the state with the card on the pile: the trick is counted and awarded, then the gameturn settled or the lead rewound; otherwise the card has left the hand at its position, is on the pile, and the next card holder plays |
| Game.TrickCloses | simple_input_logic.py:519-526 | the three closing conditions of play as written; when none holds, some other seat than the current player still holds cards, so the turn can pass on |
| Engine.Player.constructor | simple_input_logic.py:83-91 | a player starts with 5 lives and no cards |
| Engine.Player.DrawCard | simple_input_logic.py:93-96 | the card, now owned by the player, ends the hand |
| Engine.Player.PlayCard | simple_input_logic.py:98-100 | a valid index removes and returns that card; an index `pop` refuses changes nothing |
| Engine.Player.LoseLife | simple_input_logic.py:108-111 | lives drop by the loss, floored at 0 |
| Engine.Player.IsAlive | simple_input_logic.py:102-103 | with a non-negative counter, a player is alive exactly when the counter is not 0 |
| Engine.Player.IsDead | simple_input_logic.py:105-106 | with a non-negative counter, a player is dead exactly when not alive |
| Engine.Player.HasCards | simple_input_logic.py:113-114 | a player has cards exactly when the hand is not empty |
| Engine.Player.ThrowRemainingCards | simple_input_logic.py:116-117 | the hand is emptied, lives unchanged |
| Engine.Lobby.constructor | simple_input_logic.py:137-165 | the new lobby's state is `Initial` |
| Engine.Lobby.GenerateNewDeck | simple_input_logic.py:167-176 | the loop returns exactly `FullDeck` |
| Engine.Lobby.CountAlivePlayers | simple_input_logic.py:227-233 | the number of players with lives |
| Engine.Lobby.CountHavingCardsPlayers | simple_input_logic.py:235-241 | the number of players holding cards |
| Engine.Lobby.RegisterPlayer | simple_input_logic.py:244-254 | moves the state as `Register` |
| Engine.Lobby.SetNextDealerId | simple_input_logic.py:178-191 | the dealer becomes `NextSeat` of the alive seats after the old dealer, and the current player is the dealer |
| Engine.Lobby.SetNextPlayerId | simple_input_logic.py:193-204 | the current player becomes `NextSeat` of the card holders after the old one |
| Engine.Lobby.NextPlayerIsDealer | simple_input_logic.py:206-209 | with the current player and the dealer both seats, the check holds exactly when the dealer sits one place after the current player; the seats in between are not consulted |
| Engine.Lobby.RewindPlayerId | simple_input_logic.py:299-315 | moves the state as `Rewind` |
| Engine.Lobby.ShuffleDeck | simple_input_logic.py:536-539 | the deck is the fresh deck in the order `perm` |
| Engine.Lobby.DrawBeforemanilla | simple_input_logic.py:541-543 | the top card is turned up and leaves the deck |
| Engine.Lobby.SetCurrentNumberOfTurns | simple_input_logic.py:256-276 | trick counter 0, wins all zero, trick count `TurnCount` of all players' lives |
| Engine.Lobby.Draw | simple_input_logic.py:531-534 | the top card of the deck goes, owned, to the end of the player's hand |
| Engine.Lobby.PrepareGameturn | simple_input_logic.py:373-406 | moves the state as `Prepare` |
| Engine.Lobby.PrepareTable | simple_input_logic.py:373-391 | moves the state as `NewTable` |
| Engine.Lobby.SetFirstTurnType | simple_input_logic.py:400-406 | FINAL_GUESS exactly when two players are alive, otherwise GUESS |
| Engine.Lobby.DealHands | simple_input_logic.py:393-398 | moves the state as `DealStep` |
| Engine.Lobby.DealSeat | simple_input_logic.py:393-398 | seat i alone becomes its dealt hand, and the deck loses those cards |
| Engine.Lobby.DealHand | simple_input_logic.py:393-398 | the player throws their hand away and draws one card per life |
| Engine.Lobby.TrickWinner | simple_input_logic.py:317-361 | the card that takes the trick is `Resolve`'s |
| Engine.Lobby.ManillaScan | simple_input_logic.py:330-337 | the loop finds `BestManilla`, the position of the highest-color manilla |
| Engine.Lobby.UpdateCurrentWins | simple_input_logic.py:317-367 | moves the state as `UpdateWins` |
| Engine.Lobby.CountTrick | simple_input_logic.py:278-286 | moves the state as `Game.CountTrick` |
| Engine.Lobby.CloseTurn | simple_input_logic.py:278-297 | moves the state as `Game.CloseTurn` |
| Engine.Lobby.AlivePlayerIds | simple_input_logic.py:415-420 | the loop lists `AliveOrder` from the dealer |
| Engine.Lobby.LoseLives | simple_input_logic.py:430-431 | player i alone loses the lives, as `LoseLife` |
| Engine.Lobby.ApplyLifeLosses | simple_input_logic.py:425-431 | the zip loop leaves the seats as `ApplyLosses` over the shorter of the two lists |
| Engine.Lobby.SettleLosses | simple_input_logic.py:408-431 | moves the state as `AfterLosses` |
| Engine.Lobby.CloseGameturn | simple_input_logic.py:408-439 | moves the state as `Settle` |
| Engine.Lobby.Guess | simple_input_logic.py:441-476 | moves the state and reports as `GuessStep` |
| Engine.Lobby.RecordBid | simple_input_logic.py:458-476 | moves the state and reports as `Bid` |
| Engine.Lobby.AppendBid | simple_input_logic.py:474-476 | the guess is appended and the next card holder is current |
| Engine.Lobby.Play | simple_input_logic.py:478-529 | moves the state and reports as `PlayStep` |
| Engine.Lobby.PlayFromHand | simple_input_logic.py:502-513 | plays exactly when `pop` accepts the index, then as `PlayCard`; otherwise changes nothing |
| Engine.Lobby.EndPlay | simple_input_logic.py:515-529 | moves the state and reports as `Advance` |
| Engine.Lobby.StartGame | simple_input_logic.py:545-552 | moves the state and reports as `Start` |

## Left out

- Console output: the debug `print`s, `__str__`, `status()` and the interactive `__main__` loop.
- `get_alive_player_id` is never called.
- The Flask app, its routes and its database models are not part of this model.
- `random.shuffle` is not modelled as randomness. The shuffle is an input permutation `perm`.
- The `TypeError` check on the color in `Card.__init__` is left out: `Color` is a datatype, so no other value can be given.
- Player names are carried but never inspected.
- Engine.Lobby.constructor: requires 2 to 10 players.
  - With one player, `max([])` fails when the game starts.
  - With more than ten, the first deal runs out of cards (51 cards, up to 5 per player).
- Game.Start: when every player is dead the source recurses in `set_next_dealer_id` until Python's recursion limit. It has already shuffled, drawn the beforemanilla and advanced the counters by then. The model instead reports `NoLivingDealer` and leaves the lobby unchanged. At `close_gameturn` this case cannot arise, because a new gameturn is prepared only when two players are alive.
- Engine.Lobby.SetNextPlayerId: requires that some seat holds cards, where the source would recurse without end. Every caller in the model establishes this.
- Engine.Lobby.SetNextDealerId: requires that some seat is alive, for the same reason.
- Engine.Lobby.Draw, Engine.Lobby.DrawBeforemanilla: require a non-empty deck. Every caller deals at most 50 of the 51 cards.
- Game.TrickCloses: follows `next_player_is_dealer` as written. It compares the dealer with the seat right after the current player, not with the next seat that holds cards. When that seat has run out of cards (it had fewer lives than the trick count) or is dead, the trick stays open past the dealer and the dealer plays twice in it (`Game.AsWrittenDealerPlaysTwice`). The model does not state a corrected closing rule: the intended one (each card holder plays once per trick) is not fixed by the code.
- Trick resolution without a manilla: the source sorts the strengths in descending order and takes the first one with count 1. The model states this directly as "the highest strength occurring once" (`HighestUnique`), so the sorted copy is not modelled.
- Card objects are identities in Python (`draw_card` sets `owner_id` on the shared object). Here they are values, and drawing gives the hand a copy that carries the owner. No card is reachable from two places, so nothing observable is lost.
- The players' hands and lives are also mirrored in the ghost field `Lobby.seats`. `Valid()` ties the mirror to the `Player` objects.
- The uncaught exceptions become `Status` values. The model does not capture that the source leaves partial changes behind. The one exception is `rewind_player_id`, whose partial state (trick counted, pile emptied, the dealer as current player) the model does keep.

## Findings

| source | as written | input that shows it | evidently intended | confidence | as-written member | corrected member |
|---|---|---|---|---|---|---|
| simple_input_logic.py:333-336 | `winner_owner` stores an owner id, and the loop then uses it as a position in `current_played_cards` to compare colors | beforemanilla an 8; seat 1 plays the 9 of Diamonds, seat 2 the 9 of Spades, seat 0 a 3: the Spades manilla is compared with itself and seat 1 keeps the trick. With the first manilla from seat 3 in a two-card pile, the index is out of range (IndexError) | among several manillas the one of highest color wins (comment at :332) | not executed | Tricks.AsWrittenManillaScan (shown by Tricks.AsWrittenMisawardsManilla, Tricks.AsWrittenRaisesIndexError) | Tricks.BestManilla, Tricks.Resolve, Engine.Lobby.ManillaScan |
