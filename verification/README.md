# Jumpbo in Dafny

A model of the core of Jumpbo, a Ruby implementation of the card game Skip-Bo,
with proofs of the properties its code and documentation promise.

The model has three parts:

- **`CardHolder`** (`card_holder.dfy`). A labelled container of named card
  groups ("placements"). Each placement is an ordered sequence of integer cards.
  The operations are `push`, `pop`, `shift`, `unshift`, `peek`, `take`,
  `can_take?`, `shuffle!` and the `[]` lookup. Ruby's catch-all forwarding of
  the four array operations (`method_missing`) becomes the closed operation set
  `Op`, dispatched by `Send`. Errors are values of a `Result` type:
  `InvalidPlacement` for an unknown placement, `NilCard` when no card is given.
- **`Deck`** (`deck.dfy`). The full card set: eighteen wildcards (card 0)
  followed by twelve copies of each rank 1 to 12, 162 cards in all.
- **`Jumpbo`** (`jumpbo.dfy`). The game engine, with one table container (the
  draw pile and four building piles) and one container per player (hand, stock
  and four discard piles). It covers:
  - set-up (`new`): shuffle the full card set onto the draw pile, then deal each
    player a stock of the size the `CARDS_PER_PLAYER` table gives;
  - the turn (`_take_turn` / `_apply_move`);
  - the turn order (`player_i`);
  - the end of the game (`_game_over?`);
  - the draw-pile replenishment rule that the class comment describes.

Proofs about these live in three more modules:

- `JumpboFacts` (`jumpbo_facts.dfy`): dealing and replenishment.
- `InitFacts` (`init_facts.dfy`): what set-up produces.
- `TurnFacts` (`turn_facts.dfy`): turns and whole games.

`CardHolderAsWritten` (`card_holder_as_written.dfy`) models, literally, the three
container operations whose code differs from their documentation (see
"Findings"). `Permute` (`permute.dfy`) is the Fisher–Yates pass behind
`Array#shuffle!`. `Wrappers` (`wrappers.dfy`) holds `Option` and `Result`.

Randomness is always a parameter:

- A shuffle is a Fisher–Yates pass driven by a stream `rng: nat -> nat` of
  random numbers.
- `Jumpbo.Init` takes the shuffled cards themselves, and `Jumpbo.New` feeds it
  the full card set shuffled with `rng`.
- The coin `rand(2) == 0` of `_apply_move` is a stream `coin: nat -> bool`; the
  k-th move of a turn uses `coin(k)`.
- The unbounded `play_game` loop becomes `Play`, which takes one coin stream per
  turn.

Where the game's description and the code disagree, the model follows the code:

- **Cards leave the game during play.** `_apply_move` (jumpbo.rb:93-95) pops
  the mover's stock card and places it nowhere, so the 162-card total is not
  kept once play starts. `TurnFacts.TurnDrops` states exactly which cards a
  turn removes. The total is kept only through set-up (`InitFacts.InitConserves`)
  and replenishment (`JumpboFacts.ReplenishConserves`).
- **Player counts outside the table.** A count of zero or less sets up a game
  with no players, since `times` and `each` do nothing. Playing such a game is
  left out (see below). A positive count
  outside 2 to 5 fails, because `CARDS_PER_PLAYER[n]` is nil. The model
  returns `Err(NoStockSize(n))` for it.

## Model

| member | source | states |
|---|---|---|
| CardHolder.New | card_holder.rb:31-35 | the new container has exactly the given placements, each empty, and the given label |
| CardHolder.PlacementsOfNew | card_holder.rb:63-65 | `placements` of a container built by `initialize` (card_holder.rb:31-35) is exactly the set of names it was built with |
| CardHolder.Get | card_holder.rb:67-69 | `[]` yields a placement's cards exactly when it is one of the container's placements, and nothing otherwise |
| CardHolder.PushBack | card_holder.rb:49-56 | `push`: an unknown placement and a nil card are errors, checked in that order; otherwise the card is appended at the back, and no other placement or the label changes |
| CardHolder.PopBack | card_holder.rb:49-58 | `pop`: an unknown placement is an error; an empty placement yields no card and stays as it is; otherwise the back card is removed and returned, and the rest is kept in order |
| CardHolder.PushFront | card_holder.rb:10-15 | `unshift` as documented: placement and nil-card errors as for push; otherwise the card becomes the front and the old cards follow unchanged |
| CardHolder.PopFront | card_holder.rb:10-15 | `shift` as documented: the front card is removed and returned, and an empty placement yields no card |
| CardHolder.Send | card_holder.rb:37-60 | the forwarding method fails exactly for an unknown placement, or for an inserting operation without a card; otherwise it performs the named operation on that placement (pop and shift hand back what PopBack and PopFront do, push and unshift leave what PushBack and PushFront leave) and touches nothing else |
| CardHolder.Peek | card_holder.rb:71-79 | `peek` yields a card exactly for a known, non-empty placement and the place :front or :back, and that card is the first or the last |
| CardHolder.IndexOf | card_holder.rb:84 | the position of the first occurrence of a card, and none exactly when the card is absent |
| CardHolder.CanTake | card_holder.rb:23-25 | the documented `can_take?`: true exactly when the placement exists and holds the card |
| CardHolder.Take | card_holder.rb:21-22 | the documented `take`: the first copy of the card is removed and returned, and the rest keeps its order; with no such card nothing changes and nothing is returned |
| CardHolder.Shuffle | card_holder.rb:93-95 | `shuffle!` permutes one placement, keeping its length and multiset of cards, and leaves the others untouched |
| CardHolder.PushPopRoundTrip | card_holder.rb:49-58 | push then pop returns the pushed card and restores the container exactly |
| CardHolder.PopPushRoundTrip | card_holder.rb:49-58 | pop then push of the popped card restores a non-empty placement exactly |
| CardHolder.UnshiftShiftRoundTrip | card_holder.rb:10-15 | the documented unshift then shift returns the card and restores the container |
| CardHolder.ShiftUnshiftRoundTrip | card_holder.rb:10-15 | the documented shift then unshift of the card restores a non-empty placement |
| CardHolder.PeekMatchesRemoval | card_holder.rb:19-20 | peeking at the front or back shows exactly the card that shift or pop would hand back |
| CardHolder.TakeRemovesOneCopy | card_holder.rb:21-22 | with duplicates, take removes only one copy: the taken card's count drops by one and every other count is kept |
| CardHolderAsWritten.CanTake | card_holder.rb:89-91 | the code's `can_take?` answers true exactly when the placement exists, whatever its cards |
| CardHolderAsWritten.Take | card_holder.rb:82-85 | the code's `take` raises exactly when the placement exists, and otherwise returns nothing and changes nothing |
| CardHolderAsWritten.Unshift | card_holder.rb:49-58 | the code's `unshift` fails only for an unknown placement and otherwise leaves the container as it was |
| CardHolderAsWritten.Shift | card_holder.rb:49-58 | the code's `shift` demands a card and rejects a negative one; it succeeds exactly for an existing placement and a non-negative card, and then removes and returns that many front cards (all, when fewer remain) |
| CardHolderAsWritten.CanTakeAnswersForAbsentCard | card_holder.rb:87-91 | a placement without card 5 makes the code's `can_take?` answer true and the documented one false |
| CardHolderAsWritten.TakeRaisesWhereDocumentedTakeSucceeds | card_holder.rb:81-85 | wherever the documented take returns the card, the code's take raises |
| CardHolderAsWritten.FrontRoundTripBroken | card_holder.rb:49-58 | the code's unshift inserts nothing and the code's shift without a card raises, while the documented pair round-trips |
| Permute.FisherYates | deck.rb:10-12 | a shuffle keeps the length and the multiset of cards |
| Permute.Shuffle | deck.rb:10-12 | the in-place swap loop computes exactly the Fisher–Yates pass, so it yields a permutation of its input |
| Deck.RepeatCount | deck.rb:5 | `[c] * k` holds k copies of c and nothing else |
| Deck.RankBlocksCount | deck.rb:6-7 | the flattened blocks of ranks 1..m hold twelve of each of those ranks and nothing else |
| Deck.BlocksCount | deck.rb:5-7 | w wildcards followed by the blocks up to m hold w zeros, twelve of each rank 1..m, and nothing else |
| Deck.BlocksCopies | deck.rb:5-7 | the card counts above, for every card value at once |
| Deck.BlocksRange | deck.rb:5-7 | every card of that construction lies between 0 and m |
| Deck.CopiesAgree | deck.rb:5-7 | the counts the construction builds, with w = 18 and m = 12, are the rule's 18 wildcards and 12 of each rank |
| Deck.CompositionFacts | deck.rb:4-8 | the full card set has 162 cards, each between 0 and 12, with 18 wildcards and 12 of each rank |
| Deck.New | deck.rb:4-8 | a new deck holds 162 cards, each between 0 and 12, with 18 wildcards and 12 of each rank |
| Deck.Shuffle | deck.rb:10-12 | shuffling a deck keeps its length and multiset of cards |
| Jumpbo.GameCards | jumpbo.rb:22 | `GAME_CARDS` holds 162 cards: 18 wildcards and 12 of each rank 1 to 12, and no other card |
| Jumpbo.StockSize | jumpbo.rb:23-28 | there is a stock size exactly for 2 to 5 players: 30 for two or three, 20 for four or five |
| Jumpbo.PushEach | jumpbo.rb:40 | pushing the cards one by one onto an existing placement appends them in order and touches nothing else |
| Jumpbo.FreshTable | jumpbo.rb:38-40 | the new table has the five table piles, the label "Game Cards", the given cards on the draw pile in order, and empty building piles |
| Jumpbo.FreshPlayers | jumpbo.rb:42-56 | n players labelled "Player 1" onwards (none for n <= 0), each with the six player piles, all empty |
| Jumpbo.DealStock | jumpbo.rb:59 | dealing k cards by pop and push succeeds exactly when k = 0, or when both piles exist and the draw pile has k cards; a short draw pile fails on the nil card |
| Jumpbo.DealTop | jumpbo.rb:59 | the one-step deal: the draw pile loses its top k cards, the stock gains them topmost first, and nothing else changes |
| Jumpbo.DealStockMovesTop | jumpbo.rb:59 | the card-by-card deal of the code always has exactly the one-step effect, error or success |
| Jumpbo.DealtConserves | jumpbo.rb:59 | moving the top k draw cards to a stock keeps the cards of table and player together |
| Jumpbo.DealAll | jumpbo.rb:58-60 | dealing to every player keeps the number of players |
| Jumpbo.Init | jumpbo.rb:35-61 | a set-up game starts on turn 0 without a winner, with n players (none for n <= 0) |
| Jumpbo.New | jumpbo.rb:35-61 | `Jumpbo.new(n)` starts on turn 0 without a winner |
| Jumpbo.PlayerIndex | jumpbo.rb:72-74 | `player_i` is a valid player index, and is the turn itself during the first round |
| Jumpbo.ApplyMove | jumpbo.rb:93-95 | a move yields a card exactly when the coin comes up and the mover's stock is non-empty; the card is the stock's back card, and only that stock changes; with no card nothing changes |
| Jumpbo.TurnLoop | jumpbo.rb:85-89 | the move loop leaves the table, the other players and the mover's other piles alone, and leaves a prefix of the mover's stock |
| Jumpbo.TakeTurn | jumpbo.rb:85-91 | a turn advances the counter by exactly one and otherwise changes only the mover's stock, to a prefix of itself |
| Jumpbo.PlayTurn | jumpbo.rb:85-91 | the loop the engine runs computes exactly TakeTurn |
| Jumpbo.FirstEmptyStock | jumpbo.rb:98 | `detect` finds the first player with an empty stock, and none exactly when every stock has cards |
| Jumpbo.GameOver | jumpbo.rb:97-99 | the game is over exactly when some stock is empty; the recorded winner is then the first such player; nothing else changes |
| Jumpbo.Play | jumpbo.rb:63-70 | playing keeps the game's shape; with any turn to play at least one is played, each adds exactly one to the counter, and a game that ends without a winner has played one turn per coin stream |
| Jumpbo.PreviousPlayer | jumpbo.rb:81 | `players[player_i - 1]`, with Ruby's negative index, always names a valid player |
| Jumpbo.Replenish | jumpbo.rb:16-20 | with cards left on the draw pile nothing changes; with none, the draw pile becomes the building-pile cards under each pile's top card, and each building pile keeps only its top |
| JumpboFacts.DealStockConserves | jumpbo.rb:59 | dealing one stock touches only the draw pile and the stock, and keeps their cards together |
| JumpboFacts.DealStockFrame | jumpbo.rb:59 | dealing one stock of k cards makes it exactly k cards longer |
| JumpboFacts.DealAllSucceeds | jumpbo.rb:58-60 | dealing every player k cards succeeds whenever the draw pile holds k cards per player |
| JumpboFacts.DealAllTable | jumpbo.rb:58-60 | dealing to every player changes only the draw pile of the table |
| JumpboFacts.DealAllDraw | jumpbo.rb:58-60 | dealing to every player takes exactly k cards per player off the top of the draw pile |
| JumpboFacts.DealAllPlayers | jumpbo.rb:58-60 | dealing to every player grows each stock by exactly k cards and changes nothing else of any player |
| JumpboFacts.DealAllConserves | jumpbo.rb:58-60 | dealing to every player keeps the cards of the table and all players together |
| JumpboFacts.ReplenishConserves | jumpbo.rb:16-20 | replenishing the draw pile keeps exactly the cards on the table |
| InitFacts.InitWithoutPlayers | jumpbo.rb:42-60 | with n <= 0 players, set-up succeeds with no players and every given card on the draw pile, in order |
| InitFacts.InitWithoutStockSize | jumpbo.rb:58-59 | with a positive player count outside 2 to 5, set-up fails on the stock-size lookup |
| InitFacts.InitSucceeds | jumpbo.rb:35-61 | for 2 to 5 players and enough cards for every stock, set-up succeeds |
| InitFacts.InitPlayers | jumpbo.rb:42-60 | after set-up, player i is labelled "Player i+1", holds a stock of the table's size for n, and has every other pile empty |
| InitFacts.InitTable | jumpbo.rb:38-60 | after set-up, the building piles are empty and the draw pile is the shuffled cards without the n stocks dealt from its top |
| InitFacts.InitInProgress | jumpbo.rb:35-61 | set-up starts a game on turn 0 with no winner and every stock non-empty |
| InitFacts.InitConserves | jumpbo.rb:38-60 | set-up keeps every card: draw pile and stocks together hold exactly the shuffled cards |
| InitFacts.StocksFit | jumpbo.rb:22-28 | every stock-size entry leaves cards on the draw pile after dealing all stocks from the full card set |
| InitFacts.NewGame | jumpbo.rb:22-61 | `Jumpbo.new(n)` for 2 to 5 players gives a game in progress: it holds exactly the 162 cards of the full set, every player has a stock of the table's size, and the draw pile holds the rest |
| InitFacts.NewGameFrom | jumpbo.rb:35-61 | the same set-up facts for any 162 shuffled cards |
| TurnFacts.TurnRotates | jumpbo.rb:72-74 | after a turn, the next player moves, wrapping from the last to the first |
| TurnFacts.PreviousIsMover | jumpbo.rb:81 | after a turn, `players[player_i - 1]` is the player who has just moved |
| TurnFacts.Popped | jumpbo.rb:85-95 | a turn takes at most as many cards as the stock holds |
| TurnFacts.LoopLeaves | jumpbo.rb:85-89 | the move loop shortens the mover's stock by exactly the number of consecutive coins that came up, capped at the stock's size |
| TurnFacts.PoppedRun | jumpbo.rb:86-94 | with j coins up and the next down, a stock loses exactly j cards, or all of them when it holds fewer |
| TurnFacts.TurnPops | jumpbo.rb:85-95 | a turn whose first j coins come up and whose next does not takes exactly j cards off the mover's stock, or all when fewer |
| TurnFacts.IdleTurn | jumpbo.rb:85-95 | a turn whose first coin does not come up changes nothing but the turn counter |
| TurnFacts.TurnDrops | jumpbo.rb:93-95 | a turn removes from the game exactly the cards it pops off the mover's stock |
| TurnFacts.WinnerIsMover | jumpbo.rb:97-99 | after a turn of a game in progress, the game is over exactly when the mover's stock is empty, and the winner is then the mover, whom `players[player_i - 1]` names |
| TurnFacts.PlayOutcome | jumpbo.rb:63-70 | a game played from in progress either ends with a winner whose stock is empty and whom `players[player_i - 1]` names, or is still in progress after one turn per coin stream |

## Left out

- `to_s` of both classes, `p @game_cards` and the `puts` of `play_game`: these
  only format output or print it.
- `make_move` and the `ai` constructor argument. `make_move` is an empty stub
  whose result `_apply_move` ignores, and `ai` is never stored.
- The label accessor: it only reads a field, `caption` in the model (`label`
  is a reserved word in Dafny).
- CardHolder.New: the label is a string. The code also allows a nil label
  (card_holder.rb:30); nothing in the engine uses one.
- CardHolder.Shuffle: an unknown placement gives `InvalidPlacement`, whereas the
  code raises NoMethodError on `nil.shuffle!` (card_holder.rb:94). Both are
  errors, and the engine never shuffles a container.
- player.rb is not part of this model. The engine does not use it.
- Ruby's `NoMethodError` for method names other than the four forwarded ones.
  The closed `Op` datatype cannot name any other operation.
- Jumpbo.Play: the unbounded `play_game` loop is modelled over a finite horizon,
  one coin stream per turn. A game that never ends is not modelled.
- Jumpbo.PlayerIndex: requires at least one player, and so do the turn
  functions built on it (`ApplyMove`, `TakeTurn`, `Play`). A game set up with
  no players exists in the model (`Init` with n <= 0), but playing it is not
  modelled. In the code, `play_game` on such a game raises ZeroDivisionError at
  `turn % players.size` (jumpbo.rb:73).
- Permute.FisherYates: states that a shuffle is a permutation, not that it is
  uniformly distributed. Probabilities are outside the model.
- Hash key order of the containers. Placements are a map, and no operation
  here depends on the order.
- Jumpbo.GameOver: records the winner as a player index rather than the player
  object `detect` returns.
- Jumpbo.Replenish: the class comment describes this rule, but no code
  implements it. The model states the rule and proves it keeps the table's
  cards; the engine itself never calls it.
- Building-pile legality and drawing to a hand: the code implements neither.
  Its only move pops the mover's stock card.
- Player labels use a decimal rendering of the index plus one, and the model
  proves nothing about that rendering.

## Findings

| source | as written | input that shows it | evidently intended | confidence | as-written member | corrected member |
|---|---|---|---|---|---|---|
| card_holder.rb:89-91 | `can_take?` is `!@cards[placement].nil? && !!@cards[placement]`, which only tests that the placement exists | a container with one empty placement 1, asked `can_take?(5, 1)`: answers true | true exactly when the placement holds the card (card_holder.rb:23-25, 87-88) | not executed; high | CardHolderAsWritten.CanTakeAnswersForAbsentCard | CardHolder.CanTake |
| card_holder.rb:82-85 | `take` calls `delete_at(@cards.index(card))`. `Hash#index` looks among the Hash's values, which are arrays, never a card, so it yields nil and `delete_at(nil)` raises | any existing placement holding the card: `take(c, p)` raises | remove and return one copy of the card from that placement (card_holder.rb:21-22, 81) | not executed; high | CardHolderAsWritten.TakeRaisesWhereDocumentedTakeSucceeds | CardHolder.TakeRemovesOneCopy |
| card_holder.rb:52-58 | the card is passed to `shift` and nothing to `unshift`: `unshift(p, c)` inserts nothing, `shift(p)` raises for the nil card, and `shift(p, c)` removes c cards | `unshift(p, 7)` then `shift(p)`: the container is unchanged, then the call raises | unshift inserts the card at the front and shift removes and returns the front card (card_holder.rb:10-15) | not executed; high | CardHolderAsWritten.FrontRoundTripBroken | CardHolder.UnshiftShiftRoundTrip |
