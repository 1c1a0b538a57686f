# agwenst engine, modelled in Dafny

agwenst is a console card game in the style of Gwent, played by two players.
Each player has a hidden hand and a deck. A match is a series of rounds, and
in each round the players take turns playing a unit card onto one of their
three rows or passing. Once both players have passed, the round ends and the
player with the higher score (the sum of the current strengths of that
player's engaged cards) is credited with a victory. The match is over when a
player has two victories or three rounds have been played.

This project models the game engine and proves properties of the model:

- `Round` (module `Rounds`): a class whose fields are the two players, their
  rows, their passed flags and the current player. Its operations say who
  plays next, set flags, add up scores and pick a round winner.
- `Game` (module `Games`): a class holding the victory counts, the round
  counter, the players in shuffled order, and the decks, hands and round of
  each player. It deals the cards, plays cards, passes, ends rounds and
  decides when the match is over.
- `DeckBuilder` (module `DeckBuilder`): the simple deck and the balanced
  deck generators.
- `Effect` (module `Effects`): the enumeration of card effects.
- The console `Command` table (module `Commands`): command look-up
  (`forInput`) and argument splitting (`extractArguments`).

Two supporting modules model the parts of the Java platform those classes
rely on:

- `JavaUtil`: 32-bit `int` wrap-around, `IntStream.sum`, `indexOf`,
  `Collection.remove(Object)` on reference identity, and
  `Collections.shuffle` driven by a `Random` whose outputs are a parameter.
- `JavaStrings`: `Integer.toString`, `trim()` and `split("\\s+")`.

Each state-changing operation is a method. Its `ensures` ties the new state
to a specification function or step predicate on the values of the fields:
`RoundState`, with `Swapped`, `Passed` and `Scores`, and `GameState`, with
`EndRoundStep`, `PassStep` and `PlayCardStep`. The rules of play are lemmas
about those step predicates:

- each step keeps the invariant `Inv`;
- the turn never goes to a player who has passed;
- ending a round credits exactly one top scorer;
- rounds are opened by the two players in turn;
- a match within its limits that is over has exactly one winner.

`Game.playCard` calls `round.playCard(card)`, but Round.java defines no
such method. `Rounds.Round.PlayCard` is therefore an assumption about that
missing method: that it leaves the flags, the turn and the players as they
are and gives every player a list of rows. Where the card goes is left
open.

`Game.newRound` calls `new Round(players, startingPlayer)`, a constructor
Round.java does not have: its Lombok constructor takes all four fields. The
model starts each round with `ROW_COUNT` empty rows per player, all passed
flags false, and the starting player taken from the shuffled order.

## Model

| member | source | states |
|---|---|---|
| Rounds.Other | src/main/java/org/mofleury/agwenst/engine/Round.java:38-43 | the other player is one of the two players, is not the current one, and is the only such player |
| Rounds.Swapped | src/main/java/org/mofleury/agwenst/engine/Round.java:32-36 | defines `swapPlayerIfPossible` on the round's value: the turn goes to the other player unless that player has passed |
| Rounds.Passed | src/main/java/org/mofleury/agwenst/engine/Round.java:45-49 | defines `pass` on the round's value: the current player's flag is set, then the turn is handed over if possible |
| Rounds.Ended | src/main/java/org/mofleury/agwenst/engine/Round.java:51-55 | defines `hasEnded`: every flag of the round is set |
| Rounds.SwapHandsOverOnlyToUnpassed | src/main/java/org/mofleury/agwenst/engine/Round.java:32-36 | `swapPlayerIfPossible` keeps the round well formed and changes only the current player; it changes that player exactly when the opponent has not passed, and then to the opponent |
| Rounds.PassSetsOwnFlag | src/main/java/org/mofleury/agwenst/engine/Round.java:45-49 | `pass` sets the passer's flag and changes no other flag, no row and no player; afterwards either the round has ended or the player to move has not passed |
| Rounds.EndedIffBothPassed | src/main/java/org/mofleury/agwenst/engine/Round.java:51-55 | `hasEnded` holds exactly when both players' flags are set |
| Rounds.FlagsNeverReset | src/main/java/org/mofleury/agwenst/engine/Round.java:32-49 | neither swapping nor passing ever clears a set flag |
| Rounds.PassAfterEndChangesNothing | src/main/java/org/mofleury/agwenst/engine/Round.java:45-55 | passing in a round that has ended leaves the round unchanged |
| Rounds.Scores | src/main/java/org/mofleury/agwenst/engine/Round.java:57-72 | `computeScores` gives a score to exactly the players that have rows |
| Rounds.Score | src/main/java/org/mofleury/agwenst/engine/Round.java:61-67 | a player's score, the `int` sum of the row sums, is always a 32-bit `int` |
| Rounds.ScoreIsWrappedTotal | src/main/java/org/mofleury/agwenst/engine/Round.java:57-72 | a score is the exact sum of all current card values of the player's rows, wrapped once to a 32-bit `int`; it equals that sum whenever the sum fits in an `int` |
| Rounds.WrapBoth | src/main/java/org/mofleury/agwenst/engine/Round.java:61-67 | adding two `int`s with wrap-around gives the wrapped exact sum of whatever exact values they wrap |
| Rounds.FreshlyEngagedScoreNothing | src/main/java/org/mofleury/agwenst/engine/Round.java:57-72 | rows whose cards still have the value the EngagedCard constructor gives them score 0 |
| Rounds.Round.constructor | src/main/java/org/mofleury/agwenst/engine/Round.java:16-26 | the all-arguments constructor stores the four fields as given |
| Rounds.Round.HasPassed | src/main/java/org/mofleury/agwenst/engine/Round.java:28-30 | reads the player's flag; it requires the player to have one |
| Rounds.Round.GetOtherPlayer | src/main/java/org/mofleury/agwenst/engine/Round.java:38-43 | the result is one of the round's players and is not the current player |
| Rounds.Round.HasEnded | src/main/java/org/mofleury/agwenst/engine/Round.java:51-55 | in a well formed round, the result is true exactly when both players have passed |
| Rounds.Round.ComputeScores | src/main/java/org/mofleury/agwenst/engine/Round.java:57-72 | the scores have exactly the players with rows as keys, and every score is a 32-bit `int` |
| Rounds.Round.SwapPlayerIfPossible | src/main/java/org/mofleury/agwenst/engine/Round.java:32-36 | the new state is `Swapped` of the old one |
| Rounds.Round.Pass | src/main/java/org/mofleury/agwenst/engine/Round.java:45-49 | the new state is `Passed` of the old one |
| Rounds.Round.FindWinner | src/main/java/org/mofleury/agwenst/engine/Round.java:74-79 | the result is none exactly when there are no scores; otherwise it is a player with a score and no score is higher than that player's |
| Rounds.Round.PlayCard | src/main/java/org/mofleury/agwenst/engine/Game.java:98 | assumed of the method Round.java lacks: flags, turn and players stay as they are, and every player keeps a list of rows |
| Games.ShuffledIsOrder | src/main/java/org/mofleury/agwenst/engine/Game.java:60-61 | a permutation of two distinct players is one of their two orders |
| Games.StartsAlternate | src/main/java/org/mofleury/agwenst/engine/Game.java:66-68 | consecutive rounds are opened by different players and every second round by the same one; a new round is well formed, nobody has passed, and each player has `ROW_COUNT` rows |
| Games.Over | src/main/java/org/mofleury/agwenst/engine/Game.java:141-143 | defines `gameOver` on the victory counts and the round counter: a player has two victories, or three rounds have been played |
| Games.Game.GameOver | src/main/java/org/mofleury/agwenst/engine/Game.java:141-143 | `gameOver()` on the game's fields, defined as `Over` |
| Games.CreditKeepsInv | src/main/java/org/mofleury/agwenst/engine/Game.java:116-130 | crediting one player with the round keeps the invariant, including one victory per counted round |
| Games.EndRoundBy | src/main/java/org/mofleury/agwenst/engine/Game.java:116-130 | ending the round with a top scorer as the winner is an allowed `endRound` step and keeps the invariant |
| Games.WinnerOfKeyedScores | src/main/java/org/mofleury/agwenst/engine/Game.java:116-122 | when both players have rows, `findWinner` returns a player, and that player has a victory count to credit |
| Games.CreditFacts | src/main/java/org/mofleury/agwenst/engine/Game.java:116-130 | ending a round increments the counter and the winner's victories; players, hands and decks stay; a fresh round starts unless the match is over, in which case the old round stays |
| Games.AfterEndRoundStarts | src/main/java/org/mofleury/agwenst/engine/Game.java:127-129 | when the match is not over after the count, the whole new state is the counted state with a fresh round |
| Games.AfterEndRoundStays | src/main/java/org/mofleury/agwenst/engine/Game.java:127-129 | when the match is over after the count, the whole new state is the counted state with the old round |
| Games.EndRoundRule | src/main/java/org/mofleury/agwenst/engine/Game.java:116-130 | every `endRound` step keeps the invariant and credits exactly one player of the match, one with the highest score, with one victory; it counts the round and keeps hands and decks; the next round starts fresh until the match is over |
| Games.PassRule | src/main/java/org/mofleury/agwenst/engine/Game.java:109-114 | `pass` keeps the invariant, hands and decks; before the match is over it ends the round exactly when the opponent has already passed, and otherwise it hands the turn to the opponent with the passer's flag set and victories unchanged |
| Games.PlayCardTakesCard | src/main/java/org/mofleury/agwenst/engine/Game.java:89-96 | playing a card removes exactly one copy of that card from the current hand and changes no other hand and no deck |
| Games.PlayCardRule | src/main/java/org/mofleury/agwenst/engine/Game.java:89-107 | `playCard` keeps the invariant; a player left with cards hands over the turn exactly when the opponent has not passed; a player left without cards has passed |
| Games.TakingKeepsInv | src/main/java/org/mofleury/agwenst/engine/Game.java:89-98 | taking the card from the hand and letting the round place it keeps the invariant |
| Games.EndRoundKeepsBounds | src/main/java/org/mofleury/agwenst/engine/Game.java:116-143 | ending a round of a match that is not over never takes the counter past 3 or a victory count past 2 |
| Games.PassKeepsBounds | src/main/java/org/mofleury/agwenst/engine/Game.java:109-114 | passing before the match is over keeps those bounds |
| Games.PlayCardKeepsBounds | src/main/java/org/mofleury/agwenst/engine/Game.java:89-107 | playing a card before the match is over keeps those bounds |
| Games.OneWinner | src/main/java/org/mofleury/agwenst/engine/Game.java:132-143 | a match within its bounds that is over has a player with two victories, and only one |
| Games.InitialStateKeepsInv | src/main/java/org/mofleury/agwenst/engine/Game.java:43-64 | the starting state (no victories, counter 0, the first round opened by the first shuffled player) satisfies the invariant and the bounds |
| Games.DealingShuffled | src/main/java/org/mofleury/agwenst/engine/Game.java:72-85 | the first `INITIAL_HAND_SIZE` cards of a shuffled pool and the rest are a deal of that pool |
| Games.DealNext | src/main/java/org/mofleury/agwenst/engine/Game.java:70-87 | dealing to the next player keeps everyone dealt so far and leaves later players empty |
| Games.PrepareDecksAndHands | src/main/java/org/mofleury/agwenst/engine/Game.java:70-87 | every player gets a hand of `min(8, size)` cards and a deck that together are a permutation of that player's initial deck |
| Games.StartRound | src/main/java/org/mofleury/agwenst/engine/Game.java:66-68 | a new round object whose state is the fresh round for the current counter |
| Games.Game.constructor | src/main/java/org/mofleury/agwenst/engine/Game.java:43-64 | the game starts with no victories, counter 0, every hand and deck dealt from the player's initial deck, the players shuffled, and the first round fresh; the round and the generator are new objects, and the invariant and the bounds hold |
| Games.Game.GetWinner | src/main/java/org/mofleury/agwenst/engine/Game.java:132-139 | the result is none exactly when no player has two victories; otherwise it names such a player |
| Games.Game.NewRound | src/main/java/org/mofleury/agwenst/engine/Game.java:66-68 | the round is a new object in the fresh state for the current counter |
| Games.Game.CountRound | src/main/java/org/mofleury/agwenst/engine/Game.java:116-125 | the counter goes up by one, and exactly one player, a top scorer of the round, gets one more victory |
| Games.Game.EndRound | src/main/java/org/mofleury/agwenst/engine/Game.java:116-130 | the new state is an `endRound` step from the old one and keeps the invariant; a new round object appears exactly when the match is not over |
| Games.Game.Pass | src/main/java/org/mofleury/agwenst/engine/Game.java:109-114 | the new state is a `pass` step from the old one, keeps the invariant and, before the match is over, the bounds; the round is the old object or a new one |
| Games.Game.PlayCard | src/main/java/org/mofleury/agwenst/engine/Game.java:89-107 | a card not in the current hand fails and changes nothing; otherwise the new state is a `playCard` step and keeps the invariant and the bounds; the round is the old object or a new one |
| JavaUtil.ToInt32 | src/main/java/org/mofleury/agwenst/engine/Round.java:61-67 | the wrapped value is an `int`, and an `int` wraps to itself |
| JavaUtil.ToInt32Add | src/main/java/org/mofleury/agwenst/engine/Round.java:61-67 | wrapping an operand before adding does not change the wrapped sum |
| JavaUtil.Int32Sum | src/main/java/org/mofleury/agwenst/engine/Round.java:64-67 | `IntStream.sum` always yields an `int` |
| JavaUtil.Int32SumIsWrappedSum | src/main/java/org/mofleury/agwenst/engine/Round.java:61-67 | the stream sum, wrapping at every step, is the exact sum wrapped once |
| JavaUtil.IndexOf | src/main/java/org/mofleury/agwenst/console/Command.java:78 | `indexOf` is -1 exactly when the element is absent; otherwise it is the first position holding it |
| JavaUtil.RemoveFirst | src/main/java/org/mofleury/agwenst/engine/Game.java:90-92 | `remove(card)` leaves the list as it was when the card is absent; otherwise it removes exactly its first occurrence |
| JavaUtil.Random.NextInt | src/main/java/org/mofleury/agwenst/engine/Game.java:44 | each draw is an arbitrary value below the bound, and each call moves on to the next draw |
| JavaUtil.SwapIsPermutation | src/main/java/org/mofleury/agwenst/engine/Game.java:74 | exchanging two positions permutes the list |
| JavaUtil.Shuffle | src/main/java/org/mofleury/agwenst/engine/Game.java:74 | `Collections.shuffle` returns a permutation of the list |
| JavaStrings.Digits | src/main/java/org/mofleury/agwenst/DeckBuilder.java:17 | the digits of a natural number are decimal digits without a leading zero, and they denote that number |
| JavaStrings.IntToString | src/main/java/org/mofleury/agwenst/DeckBuilder.java:17 | the text of a non-negative `int` is its decimal digits; the text of a negative one is `-` followed by the digits of its magnitude |
| JavaStrings.IntToStringInjective | src/main/java/org/mofleury/agwenst/DeckBuilder.java:17 | different numbers get different texts |
| JavaStrings.Trim | src/main/java/org/mofleury/agwenst/console/Command.java:81 | the trimmed string starts and ends with a character above U+0020, and is empty exactly when every character is at most U+0020 |
| JavaStrings.Split | src/main/java/org/mofleury/agwenst/console/Command.java:81 | defines `split("\\s+")`: a string with no whitespace comes back whole, otherwise the pieces between runs of whitespace without the trailing empty ones |
| JavaStrings.SplitTrimmed | src/main/java/org/mofleury/agwenst/console/Command.java:81 | splitting a trimmed nonempty string gives nonempty tokens without whitespace that together hold its non-whitespace characters in order |
| JavaStrings.SplitJoin | src/main/java/org/mofleury/agwenst/console/Command.java:81 | words joined by single spaces split back into the same words |
| JavaStrings.TrimSpacedJoin | src/main/java/org/mofleury/agwenst/console/Command.java:81 | trimming the tail " w1 w2 ..." drops exactly the leading space |
| Effects.Effect.Ordinal | src/main/java/org/mofleury/agwenst/domain/still/Effect.java:19-21 | a constant's ordinal is its position in `values()` |
| Effects.Effect.Label | src/main/java/org/mofleury/agwenst/domain/still/Effect.java:9 | the label of each constant, "x" for SAP |
| Effects.Effect.Apply | src/main/java/org/mofleury/agwenst/domain/still/Effect.java:9-14 | the new strength SAP gives a card, 1 |
| Effects.Effect.Priority | src/main/java/org/mofleury/agwenst/domain/still/Effect.java:19-21 | `getPriority()`, defined as the ordinal |
| Effects.SapForcesOne | src/main/java/org/mofleury/agwenst/domain/still/Effect.java:9-14 | SAP sets any strength to 1 |
| Effects.SapIsIdempotent | src/main/java/org/mofleury/agwenst/domain/still/Effect.java:9-14 | applying SAP twice is the same as applying it once |
| Effects.PriorityIsOrdinal | src/main/java/org/mofleury/agwenst/domain/still/Effect.java:19-21 | the priority is the declaration position, so different constants have different priorities, and SAP's is 0 |
| Effects.SapLabel | src/main/java/org/mofleury/agwenst/domain/still/Effect.java:9 | SAP's label is "x" |
| Commands.ForInput | src/main/java/org/mofleury/agwenst/console/Command.java:67-74 | the result is the first command, in declaration order, whose name the input starts with, and none exactly when no name is a prefix |
| Commands.Command.Name | src/main/java/org/mofleury/agwenst/console/Command.java:14-59 | the name of each constant, in the declaration order that `Values` lists them in |
| Commands.NamesArePrefixFree | src/main/java/org/mofleury/agwenst/console/Command.java:14-59 | no command name is a prefix of another |
| Commands.StartsDiffer | src/main/java/org/mofleury/agwenst/console/Command.java:69 | a name whose first two characters differ from another string's is not a prefix of it |
| Commands.AtMostOneMatch | src/main/java/org/mofleury/agwenst/console/Command.java:67-74 | at most one command matches any input, so the order of the search does not matter |
| Commands.ExtractArguments | src/main/java/org/mofleury/agwenst/console/Command.java:76-85 | the arguments are empty exactly when the input has no space or starts with one |
| Commands.NoArgumentsIff | src/main/java/org/mofleury/agwenst/console/Command.java:76-85 | there are no arguments exactly when the input has no space or starts with one; a blank tail gives the one empty argument |
| Commands.ArgumentsOfTail | src/main/java/org/mofleury/agwenst/console/Command.java:80-81 | splitting a trimmed tail never gives an empty array, and gives `[""]` for a blank one |
| Commands.ArgumentsAreWords | src/main/java/org/mofleury/agwenst/console/Command.java:76-85 | with a nonblank tail the arguments are nonempty whitespace-free tokens that hold the tail's non-whitespace characters in order |
| Commands.ArgumentsIgnoreCommandWord | src/main/java/org/mofleury/agwenst/console/Command.java:76-85 | the word before the first space does not affect the arguments |
| Commands.ArgumentsRoundTrip | src/main/java/org/mofleury/agwenst/console/Command.java:76-85 | a command word, a space and words separated by single spaces give back exactly those words |
| Commands.PlayExample | src/main/java/org/mofleury/agwenst/console/Command.java:76-85 | "play 1 2" gives the arguments "1" and "2" |
| DeckBuilder.SimpleDeck | src/main/java/org/mofleury/agwenst/DeckBuilder.java:16-19 | one new unit card "c"+v of value v and target row 1 for each v from min to max, all distinct objects, and no cards when `max + 1` wraps around at `Integer.MAX_VALUE` |
| DeckBuilder.SimpleCardNamesDiffer | src/main/java/org/mofleury/agwenst/DeckBuilder.java:17 | cards of different values get different names |
| DeckBuilder.RowBlockOfParts | src/main/java/org/mofleury/agwenst/DeckBuilder.java:24-28 | the five inner loops of one pass, joined, carry the fields of that row's block |
| DeckBuilder.Copies | src/main/java/org/mofleury/agwenst/DeckBuilder.java:24-28 | n copies of one card |
| DeckBuilder.AddCopies | src/main/java/org/mofleury/agwenst/DeckBuilder.java:24-28 | one inner `range(from, until).forEach`: the new list is the old one, the same objects in the same places, followed by the added cards; there are as many added cards as the range has values, each a new object with the given fields, and no object occurs twice |
| DeckBuilder.AddRowBlock | src/main/java/org/mofleury/agwenst/DeckBuilder.java:23-29 | one pass of the outer loop: the new list is the old one, the same objects in the same places, followed by new card objects whose fields are the block of the row; no object occurs twice |
| DeckBuilder.BalancedDeck | src/main/java/org/mofleury/agwenst/DeckBuilder.java:21-33 | the deck is new card objects, none occurring twice, whose fields are the blocks of rows 1, 2 and 3 in order |
| DeckBuilder.RowBlockContents | src/main/java/org/mofleury/agwenst/DeckBuilder.java:24-28 | a block is three c1, two c2, one c3 and one c5 for its row, and nothing else |
| DeckBuilder.RowBlockFacts | src/main/java/org/mofleury/agwenst/DeckBuilder.java:24-28 | a block has seven unit cards without an effect, aimed at its row, none of value 8 |
| DeckBuilder.BalancedLayoutContents | src/main/java/org/mofleury/agwenst/DeckBuilder.java:23 | the balanced deck is the blocks of rows 1, 2 and 3, in that order |
| DeckBuilder.BalancedLayoutAt | src/main/java/org/mofleury/agwenst/DeckBuilder.java:21-33 | the deck has 21 cards, and card i is card i % 7 of the block of row i / 7 + 1 |
| DeckBuilder.BalancedDeckShape | src/main/java/org/mofleury/agwenst/DeckBuilder.java:21-33 | 21 unit cards without an effect, sorted by target row, all of them aimed at rows 1 to 3 |
| DeckBuilder.BalancedRowPositions | src/main/java/org/mofleury/agwenst/DeckBuilder.java:21-33 | a card is aimed at row r exactly when its position is one of the seven of the r-th block |
| DeckBuilder.BalancedRowSlice | src/main/java/org/mofleury/agwenst/DeckBuilder.java:21-33 | those seven positions hold that row's block |
| DeckBuilder.RowBlockValues | src/main/java/org/mofleury/agwenst/DeckBuilder.java:24-28 | a block's values are three 1s, two 2s, a 3 and a 5, summing to 15 |
| DeckBuilder.BalancedDeckHasNoEight | src/main/java/org/mofleury/agwenst/DeckBuilder.java:28 | `range(1, 1)` is empty, so no card of value 8 is made |
| Cards.AllFieldsOfJoin | src/main/java/org/mofleury/agwenst/DeckBuilder.java:21-33 | the fields of two lists joined are the two lists of fields joined |
| Cards.DistinctJoin | src/main/java/org/mofleury/agwenst/DeckBuilder.java:21-33 | two lists without a repeated object and without an object in common join into a list without a repeated object |
| Cards.Card.constructor | src/main/java/org/mofleury/agwenst/domain/still/Card.java:9-20 | the card holds the five fields as given |

## Left out

- Console I/O: ConsoleUI.java, App.java and the `execute` bodies of the commands print to and read from the terminal, so they are not part of this model. `UsagePostfix` and `Description` are kept only as data.
- Rounds.Round.PlayCard: Round.java has no `playCard` method. The model promises only that flags, turn, players and the set of players with rows stay the same, and leaves the placed rows arbitrary; `Games.PlayCardStep` takes them as a parameter.
- JavaUtil.Random.NextInt: neither the linear congruential generator of `java.util.Random` nor the way `nextInt(bound)` derives a value from its bits is reproduced. Each draw is an arbitrary value below the bound, taken from a parameter, so every property holds for every seed, and which permutation `Collections.shuffle` picks is left open.
- Rounds.Round.FindWinner: `HashMap` iteration order is not modelled. Among tied top scorers, any may be chosen, and `Games.Game.GetWinner` may likewise name any player with two victories.
- Rounds.Round.HasPassed: it requires the player to have a flag, where the source would fail unboxing a missing flag; it is not used elsewhere.
- Games.Game.constructor: it requires two distinct players, each with an initial deck. With a missing deck the source fails dereferencing null; with other player counts `getOtherPlayer` and the alternation of rounds have no meaning. Lombok's generated constructor for `@RequiredArgsConstructor` is not modelled.
- Games.StartRound: Game.java:67 calls a two-argument Round constructor that Round.java does not declare. The model builds `ROW_COUNT` empty rows per player with no flags set, as the rest of the engine assumes.
- `Row.modifier`, the `Hand` and `Deck` wrappers: hands and decks are sequences of cards and a row is only its list of engaged cards, since nothing in the core reads the modifier.
- EngagedCard's setter and effect application: nothing in the core changes `currentValue` after the constructor, which leaves it at 0. `Effect.apply` is modelled, but no caller of it is.
- Concurrency: the `AtomicInteger` counters are plain fields, since the engine is single-threaded.
- JavaStrings: a Dafny `char` is a Unicode scalar value, so Java's UTF-16 surrogate code units are not modelled; `split` is modelled only for the pattern `\s+`, the only one used.
