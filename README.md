# Texas hold'em engine: a Dafny model

This project models the game engine of a Discord poker bot written in Python. The engine has two parts.

- `poker.py` holds the cards, the 52-card deck and the hand evaluator.
- `main.py` holds the players and the game: dealing, blinds, the betting actions `check`,
  `call`, `bet` and `fold`, passing the turn, the board streets, and the settlement of a round
  into side pots.

The modules follow the program:

| module | file | models |
|---|---|---|
| `Cards` | `cards.dfy` | `Card(code)` parsing; the fresh deck order |
| `Decks` | `decks.dfy` | the `Deck` class (`refill`, `draw`) as a class whose card list is updated in place |
| `Evaluator` | `evaluator.dfy` | `Evaluator.evaluate` and its helpers, with the score flattened to a list of ints |
| `PyScores` | `pyscores.dfy` | the nested Python values the scorer builds, and how Python's `max` compares them |
| `Betting` | `betting.dfy` | the betting rules on a value `Table` of `Seat`s: the setter, the actions, the turn, the blinds, a new street |
| `Settlement` | `settlement.dfy` | `finish_round` on values: pot order, side pots, the contests, earnings, crediting |
| `Engine` | `engine.dfy` | the `Player` and `Game` classes, whose methods update fields in place, each proved against the value functions above |
| `Sequences`, `Wrappers` | `sequences.dfy`, `wrappers.dfy` | distinctness, counting, `Option` |

The engine is modelled as written, including its bugs. Four behaviours of `main.py` are stated
as proved properties:

- The `bet` setter only ever lowers `total_bet`, so no player's `total_bet` becomes positive and
  the side pots never hold the chips in `pot` (`Betting.ActionsKeepTotalsNonPositive`,
  `Settlement.NonPositiveLayers`). A player left at a total of 0 beside negative totals is even
  counted in a layer they did not stake (`Settlement.ZeroStakeMiscounted`).
- Side pots are a dictionary keyed by amount, so two layers of equal amount collide
  (`Settlement.SidePotsCollide`).
- Earnings are recorded for the evaluation loop's leftover variable `p`, not the winner `w`
  (`Settlement.AwardsGoToLast`).
- Earnings are keyed by share, so a later pot's equal share overwrites an earlier one
  (`Settlement.EqualSharesOverwrite`).

Two defects of `poker.py` are corrected in the model, and the rest of the model uses the corrected
definitions (see Findings).

Python integers are unbounded, and so are Dafny's `int`s: no width is modelled. Python `list`s of
players are `seq<Player>` fields reassigned by the methods. A Python dictionary is a sequence of
key/value pairs in insertion order (`Settlement.Put`), because the source iterates over
dictionaries.

## Model

| member | source | states |
|---|---|---|
| `Cards.IndexOf` | poker.py:8-9 | `str.index`: the first position holding the character, and None exactly when the character is absent (where Python raises) |
| `Cards.ParseCard` | poker.py:5-9 | a code parses exactly when it has at least two characters (later ones are ignored), its upper-cased rank character is one of 2-9, T, J, Q, K, A and its lower-cased suit character one of c, s, h, d; the card parsed is valid |
| `Cards.ParseCode` | poker.py:5-9 | round trip: parsing the code of a valid card gives back that card |
| `Cards.ParseCanonical` | poker.py:6-7 | the other direction: a parsed card fixes its code up to the case of each character |
| `Cards.ParseAgreesExceptPadding` | poker.py:8 | the corrected parser and the parser as written agree on every code whose rank character is not the padding '.' |
| `Cards.DotParsesAsRankZero` | poker.py:8 | as written, ".c" parses to a card of rank 0; the corrected parser refuses it |
| `Cards.DeckCodesParse` | poker.py:91-94 | the i-th card of the fresh deck is the parse of the i-th code of `product(ranks, suits)` |
| `Cards.FullDeckComplete` | poker.py:91-94 | the fresh deck holds 52 valid, pairwise different cards, and every valid card is in it |
| `Decks.Deck.constructor` | poker.py:85-86 | a new deck holds the full 52-card deck |
| `Decks.Deck.Refill` | poker.py:91-94 | after `refill` the deck is the full deck in product order |
| `Decks.Deck.Draw` | poker.py:88-89 | the draw succeeds exactly when the deck holds `amount` cards; then it returns `amount` cards, and drawn plus left equals the old deck as a multiset; when the deck runs out, the deck is left empty and nothing is returned (the raise) |
| `Decks.DrawnCardsAreFresh` | poker.py:88-89 | cards drawn from a deck without repeats are pairwise different and none of them is still in the deck |
| `Evaluator.Ranks` | poker.py:61-62 | `_ranks`: a descending list with the same multiset as the hand's rank numbers |
| `Evaluator.FlushIffOneSuit` | poker.py:67-68 | `_flush` holds exactly when every card has the suit of the first |
| `Evaluator.StraightIff` | poker.py:70-71 | `_straight` holds exactly when the ranks are distinct and span one less than their number |
| `Evaluator.NoWheel` | poker.py:70-71 | five ranks holding both an ace and a two are never a straight (no ace-low run) |
| `Evaluator.Kind` | poker.py:80-81 | `_kind(size, ranks)` is a rank occurring exactly `size` times when there is one, and 0 when there is none |
| `Evaluator.TwoPair` | poker.py:73-78 | `_two_pair` is non-empty exactly when two ranks pair; then it has two ranks, highest first, each occurring exactly twice |
| `Evaluator.TwoPairIff` | poker.py:73-78 | `_two_pair` is non-empty exactly when two different ranks each occur exactly twice |
| `Evaluator.ScoreCategory` | poker.py:37-59 | the category of the score is the one the rules assign, checked in the order of the `if` chain and read off the cards in hand order |
| `Evaluator.ScoreTieBreaks` | poker.py:40-59 | the entries after the category are that category's tie-breaks: the straight's high card, the quad rank and kicker, the trip and pair ranks, both pairs highest first, or the ranks highest first |
| `Evaluator.AceTwoNeverStraight` | poker.py:40-51 | a hand holding an ace and a two never scores as a straight or a straight flush |
| `Evaluator.CombinationsSound` | poker.py:33 | every combination is a subsequence of the cards of the requested length |
| `Evaluator.CombinationsComplete` | poker.py:33 | every subsequence of the requested length is one of the combinations |
| `Evaluator.BestIndex` | poker.py:33 | `max(…, key=…)` picks a greatest key, and the first of several equal ones |
| `Evaluator.Evaluate` | poker.py:32-35 | `evaluate` gives a score exactly when there are at least five cards; the score is that of some five-card subset, and no five-card subset scores higher |
| `Evaluator.BestIsMaximal` | poker.py:33-34 | a combination whose score is maximal among the combinations beats every five-card subset |
| `PyScores.FlattenNest` | poker.py:42-59 | flattening loses nothing: each return statement's nested value is rebuilt from the flat score |
| `PyScores.NestOrder` | poker.py:33 | between scores that are not royal flushes, Python's tuple order is the order of the flat scores, and comparing never raises |
| `PyScores.MixedKeysRaise` | poker.py:33 | once a bare int and a tuple are both among the keys, Python's `max` raises |
| `PyScores.MaxAgrees` | poker.py:33 | without royal flushes, Python's `max` picks the same position as the flat order |
| `PyScores.EvaluateAgrees` | poker.py:32-35 | where the best five cards are not a royal flush, `evaluate` as written returns the nested form of the corrected score |
| `PyScores.RoyalRaises` | poker.py:41-42 | as written, `evaluate` raises on any cards that hold a royal flush and also a five-card subset that is not one |
| `PyScores.RoyalWithSixCards` | poker.py:41-42 | the ace-to-ten of spades with the two of clubs scores [9] when corrected, while `evaluate` as written raises |
| `PyScores.RoyalIsBest` | poker.py:40-42 | with a royal flush among the cards, the corrected evaluation is the royal flush |
| `Engine.Player.constructor` | main.py:6-14 | a new player has the name given, no cards, chips, bet or total, and is neither dealer, acted nor folded |
| `Betting.AssignBet` | main.py:20-25 | the setter sets the bet; `total_bet` falls by a lowered bet's difference and ignores a raised bet, so it never grows; nothing else changes |
| `Engine.Player.SetBet` | main.py:20-25 | the player's fields become what `AssignBet` gives, and the name stays |
| `Betting.RotateSpec` | main.py:165-172 | the turn lands on a player who has not folded; the player who held it is marked as acted; only folded seats passed over are marked too; a turn that comes back means everyone else has folded |
| `Betting.RotateKeepsStakes` | main.py:165-172 | passing the turn changes nothing but `made_action` |
| `Engine.RotateIsMarking` | main.py:166-172 | the loop stops after `g` steps exactly at the seat `Rotate` chooses, with every seat it left marked |
| `Engine.Game.RotatePlayer` | main.py:165-172 | the game's state after `rotate_player` is `Rotate` of the state before; the players and fixtures stay |
| `Engine.Position` | main.py:168 | `players.index(p)`: the first position holding the player |
| `Betting.Check` | main.py:124-128 | `check` is allowed exactly when the player's bet equals `current_bet`; then the turn moves on and nothing else changes |
| `Betting.Call` | main.py:130-143 | `call` is allowed exactly when the bet is below `current_bet`. A covered call brings the bet to `current_bet`, takes the whole `current_bet` from the chips and adds the difference to the pot. A short call goes all in. No other player's stake changes |
| `Betting.CallSteps` | main.py:130-141 | an allowed call is the payment followed by the turn moving on |
| `Betting.CallAccounting` | main.py:131-140 | chips plus pot are kept by a short call; a covered call loses the caller's previous bet |
| `Betting.Bet` | main.py:145-159 | `bet` is allowed exactly when the amount is at least double `current_bet`. A covered bet pays the amount and a short one goes all in; `current_bet` becomes the player's bet; no other player's stake changes |
| `Betting.BetSteps` | main.py:145-157 | an allowed bet is the payment and the new `current_bet`, followed by the turn moving on |
| `Betting.BetAccounting` | main.py:146-155 | chips plus pot are kept by a short bet; a covered bet loses the bettor's previous bet |
| `Betting.CoveredBetMovesOn` | main.py:145-157 | with nobody folded, a covered bet by the player holding the turn is paid in full, becomes `current_bet`, and the turn passes to the next seat |
| `Betting.Fold` | main.py:161-163 | the turn moves on as `rotate_player` moves it, then the player folds; no other stake, the pot or `current_bet` changes |
| `Betting.RotateKeepsClosed` | main.py:46-49 | passing the turn never reopens a betting round that `players_to_act` has closed |
| `Betting.ActionsKeepTotalsNonPositive` | main.py:20-25 | from non-positive totals, no check, call, bet or fold makes any `total_bet` positive |
| `Engine.Game.Check` | main.py:124-128 | the method does what `Betting.Check` says for the player's position, or changes nothing when the check is refused |
| `Engine.Game.Call` | main.py:130-143 | the method does what `Betting.Call` says, or changes nothing when the call is refused |
| `Engine.Game.Bet` | main.py:145-159 | the method does what `Betting.Bet` says, or changes nothing when the bet is refused |
| `Engine.Game.Fold` | main.py:161-163 | the method leaves the state `Betting.Fold` gives |
| `Engine.Game.NextToAct` | main.py:46-49 | `players_to_act` yields the player holding the turn exactly while the betting round is not closed |
| `Engine.Game.constructor` | main.py:32-44 | a new game has a fresh full deck, an empty board, no bet and an empty pot, the blinds given, and the players after `initialize_game` |
| `Engine.Game.InitializeGame` | main.py:55-62 | a table without a dealer gets exactly one, a table with dealers keeps them, and every player's chips become the game's starting chips |
| `Engine.Game.AppointDealer` | main.py:56-57 | exactly one player becomes dealer when none was; otherwise nothing changes |
| `Engine.Game.GiveChips` | main.py:61-62 | every player's chips become the starting chips, and nothing else changes |
| `Engine.Game.Deal` | main.py:51-53 | each player gets two cards drawn from the deck; the deal completes exactly when the deck holds two cards per player, and then hands plus deck are the old deck, and from a deck without repeats no card is dealt twice and none stays in the deck; when the deck runs short, the players before the failure keep new hands and the deck is empty |
| `Engine.FreshHands` | main.py:51-53 | hands drawn from a deck without repeats repeat no card and leave none of theirs in the deck |
| `Engine.Game.DealRound` | main.py:65-66 | refilling and dealing succeed exactly when 52 cards serve every player two; the hands then hold distinct cards that, with the deck left, make up the full deck |
| `Engine.Game.ResetPlayers` | main.py:69-71 | every fold is undone and every `total_bet` becomes 0 |
| `Betting.ToDealer` | main.py:73-74 | the list turns until its first dealer leads; the turn stays with the same player |
| `Engine.TurnedView` | main.py:73-74 | the players turned by the loop are the table turned by `ToDealer` |
| `Engine.Game.TurnToDealer` | main.py:73-74 | the method turns the player list as `ToDealer` turns the table, keeping the same players |
| `Betting.Opening` | main.py:67-76 | the pot is empty, nobody is folded and every `total_bet` is 0, the dealer leads and holds the turn |
| `Betting.Blinds` | main.py:76-82 | the blinds are posted exactly when the small blind is at least double `current_bet` and the big blind at least double the bet the small blind leaves; when posted, the dealer has not acted and the betting round is open |
| `Betting.OpenRound` | main.py:67-82 | the round opens exactly when both blinds are allowed at the opened table; then the dealer is first, has not acted, and the betting round is open |
| `Betting.PaidKeepsMark` | main.py:146-155 | paying towards a bet does not touch `made_action` |
| `Betting.BetMovesOn` | main.py:145-157 | an allowed bet by the player holding the turn, with the next seat not folded, pays through `Paid`, marks the player as acted, adds the payment to the pot, makes the new bet `current_bet` and hands the turn to the next seat |
| `Betting.BlindsPaid` | main.py:76-82 | posted blinds at a table of two or more, for any stacks: the dealer's seat becomes its payment towards the small blind, the next seat its payment towards the big blind, both unmarked; no other seat changes; the pot grows by both payments; `current_bet` is the big blind's bet; the turn passes to the seat after the big blind |
| `Betting.BlindsAlone` | main.py:76-82 | a lone dealer pays towards the small blind and then the big blind, and keeps the turn |
| `Betting.OpenRoundPosted` | main.py:67-82 | an opened round is the opened table with both blinds paid as in `BlindsPaid`, into an empty pot |
| `Betting.BlindsPosted` | main.py:76-82 | with both blinds covered and allowed, the dealer bets the small blind and the next player the big blind, each paid from their chips, and the pot and `current_bet` follow |
| `Betting.OpenRoundTotals` | main.py:69-82 | a successful opening leaves nobody folded and no positive `total_bet` |
| `Engine.BlindsOutcome` | main.py:76-82 | the state the blinds leave: `Blinds`' table when both are posted; the table unchanged when the small blind is refused; the small blind's bet when only the big blind is refused, where the second `bet` raises |
| `Engine.Game.PostBlinds` | main.py:76-82 | the method leaves the state `BlindsOutcome` gives: both blinds posted as `Blinds` says, or stopped where a blind was refused |
| `Engine.Game.InitializeRound` | main.py:64-84 | the deck is refilled and dealt; with more than 26 players the deal raises. Otherwise the round opens as `OpenRound` says, and `round_ended` becomes false only when both blinds are posted |
| `Settlement.PotOrder` | main.py:91 | `pot_order` holds exactly the players who have not folded, ordered by `total_bet` with ties in list order |
| `Settlement.OrderUnique` | main.py:91 | the stable sort is unique: two such orderings of the same players are equal |
| `Settlement.SidePots` | main.py:90-99 | the side pots have distinct amounts as keys, and each names a non-empty tail of `pot_order` |
| `Settlement.DistinctAmountsKeepLayers` | main.py:97-98 | when no two layers share an amount, the dictionary keeps every layer in order |
| `Settlement.LayersAddUp` | main.py:92-99 | when every total is non-negative, or no player still in has a total of 0, the layers add up to exactly what the players in `pot_order` staked, whatever the totals' sign |
| `Settlement.ZeroStakeMiscounted` | main.py:92-99 | a total of 0 after non-zero ones breaks that sum: with stakes a < b < 0 and 0, the layers are 3a and 2(b - a), which add up to b more than was staked (-30, -10 and 0 give -90 and 40: -50 against -40) |
| `Settlement.NonPositiveLayers` | main.py:92-99 | with the totals the setter leaves (never positive), the layers add up to at most zero |
| `Settlement.SidePotsCollide` | main.py:97-98 | with three non-zero stakes a < b < c where the middle layer 2(b - a) equals the top layer c - b (as with -40, -30 and -10, which the setter reaches, or 10, 20 and 40), the top layer overwrites the middle one: two pots remain, not three |
| `Settlement.PutSpec` | main.py:114 | after a dictionary assignment the entry assigned is present, the keys are the old ones plus the key, keys stay unique, a new key is appended, and every entry is the one assigned or an old one |
| `Settlement.PutKeepsOthers` | main.py:114 | an assignment keeps every entry under another key |
| `Settlement.PutInPlace` | main.py:114 | assigning to a present key replaces its value where it stands and leaves every other position alone |
| `Settlement.CollapseSpec` | main.py:98 | a dictionary filled from a list of pairs has one entry per distinct key, each from the list, and the last pair under each key is the entry kept |
| `Settlement.CollapseLastWins` | main.py:98 | the pair assigned last under a key is in the dictionary |
| `Settlement.CollapseOverwrites` | main.py:98 | of two pairs under one key, only the later stays (when nothing after it has the key); the earlier is gone unless equal to it |
| `Settlement.EvalsSpec` | main.py:86-87 | each player's evaluation is `evaluate` of their hand with the board, a well-shaped score |
| `Settlement.ContestFindsBest` | main.py:103-111 | `winning_hand` is the greatest evaluation, held by some player, and `winners` lists exactly the players holding it, in order |
| `Settlement.ContestOutcome` | main.py:102-113 | between one and all players win, and the winning category has a name |
| `Settlement.MeaningDefined` | poker.py:21-30 | every category 0-9 has a name |
| `Settlement.Award` | main.py:102-114 | a pot is awarded exactly when every eligible hand can be evaluated, and is recorded for the pot's last eligible player |
| `Settlement.AwardShare` | main.py:112-114 | the share is the pot floor-divided by the number of winners, and the reason is the name of the winning category |
| `Settlement.Earnings` | main.py:101-114 | the earnings exist exactly when every pot's award does |
| `Settlement.EqualSharesOverwrite` | main.py:112-114 | two pots awarding the same share leave one entry under it in `earnings`: the later pot's award, with its player and reason; the earlier award is gone unless identical |
| `Settlement.AwardsGoToLast` | main.py:112-114 | every earning goes to the last player of `pot_order`, whoever won |
| `Settlement.Credit` | main.py:116-118 | crediting changes only chips, and keeps the number of players |
| `Settlement.CreditAccounting` | main.py:116-118 | crediting adds exactly the recorded shares to the players' chips |
| `Settlement.Settle` | main.py:89-121 | on success, the credited seats have the chips before plus the shares, every share names a player at the table, and the seats are the credited ones |
| `Engine.Game.CreditAll` | main.py:116-118 | the loop leaves the players' fields as `Credit` gives them |
| `Engine.Game.FinishRound` | main.py:89-121 | when settling succeeds, the players are credited, the shares become `round_win_info` and the round ends; when an evaluation raises, nothing changes |
| `Betting.Cleared` | main.py:185-187 | every bet is 0 through the setter and every fold is undone; chips, dealer and `made_action` stay, and `total_bet` loses the cleared bet |
| `Engine.Game.ClearBets` | main.py:185-187 | the method leaves the players' fields as `Cleared` gives them |
| `Betting.NewStreet` | main.py:182-193 | a new street keeps the number of players and the pot, and `current_bet` becomes 0 |
| `Betting.NewStreetSpec` | main.py:182-193 | on a new street the dealer leads, no bet or fold is left, chips stay, the turn is one seat after the player who held it, and only that player's `made_action` is cleared |
| `Betting.RotateThenUnmark` | main.py:191-193 | when the next seat has not folded, passing the turn and then clearing the former holder's mark changes nothing but the turn and the former holder's `made_action`, which ends false |
| `Betting.StreetKeepsTotalsNonPositive` | main.py:182-193 | a new street makes no `total_bet` positive |
| `Engine.Game.StartStreet` | main.py:182-193 | the method leaves the state `NewStreet` gives |
| `Engine.Game.DrawToBoard` | main.py:175-178 | the draw succeeds exactly when the deck holds the cards; the board then grows by them and keeps its prefix, and board plus deck keep their cards; otherwise the board stays and the deck is empty |
| `Engine.Game.NextBettingRound` | main.py:174-193 | an empty board gets three cards, a shorter board one, a full board settles the round; when that succeeds a new street opens as `NewStreet` says, otherwise the state is left where the raise stopped it |

## Left out

- The game driver (main.py:196-225) and the `print(side_pots)` in `finish_round` are I/O, and are not part of this model.
- The blinds: main.py:37 computes the small blind as the float `round(chips / 200, -1)`. The model takes a whole-number small blind as a constructor argument; the big blind is twice it, as at main.py:38.
- Randomness: the position `draw` pops and the player `random.choice` appoints are left open. Every position and every player is allowed.
- `current_player` is unset in main.py until `initialize_round`. The constructor gives the turn to the first player, because every method's state needs a player holding the turn.
- The betting methods, `rotate_player` and `players_to_act` require some player who has not folded, and `TurnToDealer`, `InitializeRound`, `StartStreet` and `NextBettingRound` require a dealer. Without these the Python loops never end, so the model excludes those states rather than modelling non-termination.
- `players_to_act` is a generator. `Engine.Game.NextToAct` models one step of it (the player it would yield next, or none), not the suspended generator.
- The player list passed to `Game(players)` is aliased by the caller in Python. The model takes the list as a value and does not model outside changes to it.
- `evaluate_player` (main.py:86-87) is modelled inside `Settlement.Evals`, not as a member of its own.
- `round_win_info` is a dictionary keyed by share in main.py. The model keeps it as the list of (share, (player, reason)) entries in insertion order, with unique keys.
- Engine.Game.InitializeRound: the deck left by the deal is the ghost out-parameter `rest`. That posting the blinds leaves `deck.cards` equal to it is not stated.
- Engine.Game.NextBettingRound: the deck after the draw is the ghost out-parameter `rest`. That the new street leaves `deck.cards` equal to it is not stated.
- Engine.Game.constructor: requires a non-empty list of pairwise different players. `Game()` defaults to `players=[]` (main.py:32), where `random.choice` raises IndexError (main.py:57), and Python accepts a list holding one `Player` twice; neither case is modelled.
- Evaluator.Kind: takes the first qualifying rank in list order, where poker.py:81 takes the first in the iteration order of `set(ranks)`. The two agree whenever at most one rank qualifies, which holds at each call in poker.py:44-57.
- Engine.Game.FinishRound: settles with the corrected evaluation, where a contender whose cards hold a royal flush scores [9]. As written, evaluating that contender at main.py:106 raises TypeError (inside `evaluate`, poker.py:33, as `PyScores.RoyalRaises` shows), so `finish_round` stops and nothing is credited; the model settles that round instead, and so do `Settlement.Evals`, `Settlement.Settle` and `Engine.Game.NextBettingRound`.
- The settlement keeps the source's defects (the leftover `p`, shares and amounts as dictionary keys). A corrected settlement is not part of this model.

## Findings

| source | as written | input that shows it | evidently intended | confidence | as-written member | corrected member |
|---|---|---|---|---|---|---|
| poker.py:41-42 | a royal flush scores the bare int `9`, while every other hand scores a tuple; `max(…, key=…)` in `evaluate` then compares `9` with a tuple and raises TypeError | the six cards As Ks Qs Js Ts 2c: the royal flush and any five-card subset that is not one | the royal flush as the highest score, `(9,)`, so that `evaluate` returns it | not executed | `PyScores.RoyalRaises` | `Evaluator.Evaluate` |
| poker.py:8 | the rank lookup string starts with the padding `..`, so `'.'` is accepted as rank 0 | the code ".c" makes a club of rank 0, a card no deck holds | the padding only shifts the indices; a code whose rank character is `'.'` is refused like any other unknown rank | not executed | `Cards.DotParsesAsRankZero` | `Cards.ParseCard` |
