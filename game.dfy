/**
 * A match between two players (Game.java): dealing the hands and decks,
 * rounds that start in turn with each player, playing a card from the hand,
 * passing, crediting the best score of a finished round with a victory, and
 * the end of the match after two victories or three rounds.
 *
 * `GameState` is the value of a game's fields; the predicates `EndRoundStep`,
 * `PassStep` and `PlayCardStep` say which states an operation may lead to,
 * and the lemmas after them state what every such step keeps: the shape of
 * the state, the count of victories, the rule that a player who has passed
 * is not given the turn again, and the bounds that make the match end with
 * one winner.
 */
module Games {
  import opened Wrappers
  import opened JavaUtil
  import opened Cards
  import opened Rounds

  /** `ROW_COUNT`: the rows of each player. */
  const RowCount: nat := 3
  /** `INITIAL_HAND_SIZE`: the cards dealt to a hand at the start. */
  const InitialHandSize: nat := 8

  datatype GameState = GameState(
    players: seq<Player>,
    shuffledPlayers: seq<Player>,
    victories: map<Player, nat>,
    roundCounter: nat,
    decks: map<Player, seq<Card>>,
    hands: map<Player, seq<Card>>,
    round: RoundState)

  predicate TwoPlayers(players: seq<Player>) {
    |players| == 2 && players[0] != players[1]
  }

  /** `RowCount` empty rows for each player. */
  function EmptyRows(players: seq<Player>): map<Player, seq<Row>> {
    map p | p in players :: seq(RowCount, _ => Row([]))
  }

  /** No player has passed. */
  function NonePassed(players: seq<Player>): map<Player, bool> {
    map p | p in players :: false
  }

  /** The round `newRound()` makes: nobody has passed, the rows are empty, and the shuffled players start in turn. */
  function FreshRound(players: seq<Player>, shuffledPlayers: seq<Player>, roundCounter: nat): RoundState
    requires |shuffledPlayers| == 2
  {
    RoundState(players, EmptyRows(players), NonePassed(players), shuffledPlayers[roundCounter % 2])
  }

  /** `gameOver()`: a player has two victories, or three rounds have been played. */
  predicate Over(victories: map<Player, nat>, roundCounter: nat) {
    (exists p | p in victories :: victories[p] == 2) || roundCounter == 3
  }

  /**
   * What a hand and a deck dealt from `pool` are: the hand holds the first
   * `InitialHandSize` cards of a permutation of the pool (all of them when
   * there are fewer) and the deck the rest.
   */
  predicate DealtFrom(hand: seq<Card>, deck: seq<Card>, pool: seq<Card>) {
    && |hand| == (if |pool| < InitialHandSize then |pool| else InitialHandSize)
    && multiset(hand + deck) == multiset(pool)
  }

  // ---------------------------------------------------------------------
  // Invariants

  /**
   * The shape of every game state: two players, met in a shuffled order,
   * each with a victory count, a deck and a hand, a well formed round
   * between them, and one victory per completed round.
   */
  ghost predicate Shape(g: GameState) {
    && TwoPlayers(g.players)
    && IsOrderOf(g.shuffledPlayers, g.players)
    && KeyedBy(g.victories, g.players)
    && KeyedBy(g.decks, g.players)
    && KeyedBy(g.hands, g.players)
    && WellFormed(g.round) && g.round.players == g.players
    && g.victories[g.players[0]] + g.victories[g.players[1]] == g.roundCounter
  }

  /** ... and, until the match is over, the turn is with a player who has not passed. */
  ghost predicate Inv(g: GameState) {
    Shape(g) && (Over(g.victories, g.roundCounter) || !g.round.passed[g.round.current])
  }

  /** What holds as long as no command is given after the match is over. */
  predicate Bounded(g: GameState) {
    g.roundCounter <= 3 && forall p | p in g.victories :: g.victories[p] <= 2
  }

  // ---------------------------------------------------------------------
  // Steps

  function Credit(victories: map<Player, nat>, winner: Option<Player>): map<Player, nat>
    requires winner.Some? ==> winner.value in victories
  {
    if winner.Some? then victories[winner.value := victories[winner.value] + 1] else victories
  }

  /** `endRound()` once `findWinner()` has chosen `winner`. */
  function AfterEndRound(g: GameState, winner: Option<Player>): GameState
    requires |g.shuffledPlayers| == 2
    requires winner.Some? ==> winner.value in g.victories
  {
    var counted := g.(roundCounter := g.roundCounter + 1, victories := Credit(g.victories, winner));
    if Over(counted.victories, counted.roundCounter) then counted
    else counted.(round := FreshRound(g.players, g.shuffledPlayers, counted.roundCounter))
  }

  /** `endRound()`: for some choice `findWinner()` may make. */
  ghost predicate EndRoundStep(g: GameState, g': GameState) {
    && |g.shuffledPlayers| == 2
    && ((Scores(g.round.rows) == map[] && g' == AfterEndRound(g, None))
        || exists w | w in g.victories :: IsWinnerChoice(Scores(g.round.rows), Some(w)) && g' == AfterEndRound(g, Some(w)))
  }

  /** `pass()`: the round's pass, then the end of the round if both players have passed. */
  ghost predicate PassStep(g: GameState, g': GameState) {
    && WellFormed(g.round) && |g.shuffledPlayers| == 2
    && var mid := g.(round := Passed(g.round));
       if Ended(mid.round.passed) then EndRoundStep(mid, g') else g' == mid
  }

  /** The state once the card has left the current hand and the round has given the rows the value `placed`. */
  function TakenAndPlaced(g: GameState, card: Card, placed: map<Player, seq<Row>>): GameState
    requires g.round.current in g.hands
  {
    var cp := g.round.current;
    g.(hands := g.hands[cp := RemoveFirst(g.hands[cp], card)], round := g.round.(rows := placed))
  }

  /**
   * `playCard(card)` when the card is in the current hand and the round
   * puts it into the rows, giving them the value `placed`: a player left
   * without cards passes, otherwise the turn is handed over if possible.
   */
  ghost predicate PlayCardStep(g: GameState, card: Card, placed: map<Player, seq<Row>>, g': GameState) {
    && WellFormed(g.round) && |g.shuffledPlayers| == 2
    && g.round.current in g.hands && card in g.hands[g.round.current]
    && placed.Keys == g.round.rows.Keys
    && var mid := TakenAndPlaced(g, card, placed);
       if mid.hands[g.round.current] == [] then PassStep(mid, g') else g' == mid.(round := Swapped(mid.round))
  }

  // ---------------------------------------------------------------------
  // What the steps keep

  /** The two orders in which two players can be met. */
  predicate IsOrderOf(shuffledPlayers: seq<Player>, players: seq<Player>) {
    |players| == 2 && (shuffledPlayers == players || shuffledPlayers == [players[1], players[0]])
  }

  /** A shuffle of the two players is one of their two orders. */
  lemma ShuffledIsOrder(players: seq<Player>, shuffledPlayers: seq<Player>)
    requires TwoPlayers(players) && |shuffledPlayers| == 2 && multiset(shuffledPlayers) == multiset(players)
    ensures IsOrderOf(shuffledPlayers, players)
  {
    assert shuffledPlayers[0] in multiset(shuffledPlayers) && shuffledPlayers[1] in multiset(shuffledPlayers);
    assert multiset(players) == multiset{players[0]} + multiset{players[1]} by {
      assert players == [players[0]] + [players[1]];
    }
    assert multiset(shuffledPlayers) == multiset{shuffledPlayers[0]} + multiset{shuffledPlayers[1]} by {
      assert shuffledPlayers == [shuffledPlayers[0]] + [shuffledPlayers[1]];
    }
    assert shuffledPlayers[0] != shuffledPlayers[1];
  }

  /**
   * Each new round is started by the player who did not start the last
   * one, and a new round is a well formed round in which nobody has passed.
   */
  lemma StartsAlternate(players: seq<Player>, shuffledPlayers: seq<Player>, k: nat)
    requires TwoPlayers(players) && IsOrderOf(shuffledPlayers, players)
    ensures FreshRound(players, shuffledPlayers, k).current != FreshRound(players, shuffledPlayers, k + 1).current
    ensures FreshRound(players, shuffledPlayers, k + 2).current == FreshRound(players, shuffledPlayers, k).current
    ensures WellFormed(FreshRound(players, shuffledPlayers, k))
    ensures forall p :: p in players ==> !FreshRound(players, shuffledPlayers, k).passed[p]
    ensures forall p :: p in players ==> |FreshRound(players, shuffledPlayers, k).rows[p]| == RowCount
  {
    assert (k + 1) % 2 != k % 2;
    assert (k + 2) % 2 == k % 2;
  }

  /** Crediting `w` with the round keeps the invariant. */
  lemma CreditKeepsInv(g: GameState, w: Player)
    requires Shape(g) && w in g.victories
    ensures Inv(AfterEndRound(g, Some(w)))
  {
    var p0, p1 := g.players[0], g.players[1];
    var credited := g.victories[w := g.victories[w] + 1];
    var counted := g.(roundCounter := g.roundCounter + 1, victories := credited);
    assert w == p0 || w == p1;
    assert credited[p0] + credited[p1] == counted.roundCounter;
    assert credited.Keys == g.victories.Keys;
    assert Shape(counted);
    if Over(credited, counted.roundCounter) {
      assert AfterEndRound(g, Some(w)) == counted;
    } else {
      StartsAlternate(g.players, g.shuffledPlayers, counted.roundCounter);
      assert AfterEndRound(g, Some(w)) == counted.(round := FreshRound(g.players, g.shuffledPlayers, counted.roundCounter));
    }
  }

  /** `endRound()` choosing `w` is an allowed step, and it keeps the invariant. */
  lemma EndRoundBy(g: GameState, w: Player, g': GameState)
    requires Shape(g) && w in g.victories && IsWinnerChoice(Scores(g.round.rows), Some(w))
    requires g' == AfterEndRound(g, Some(w))
    ensures Inv(g') && EndRoundStep(g, g')
  {
    CreditKeepsInv(g, w);
  }

  /** When both players have rows, `findWinner()` finds a winner, and the winner has a victory count. */
  lemma WinnerOfKeyedScores(rows: map<Player, seq<Row>>, victories: map<Player, nat>, players: seq<Player>, winner: Option<Player>)
    requires KeyedBy(rows, players) && KeyedBy(victories, players)
    requires IsWinnerChoice(Scores(rows), winner)
    ensures winner.Some? && winner.value in victories
  {
    assert players[0] in Scores(rows);
  }

  /** What `endRound()` changes once `w` has been chosen. */
  lemma CreditFacts(g: GameState, w: Player)
    requires Shape(g) && w in g.victories
    ensures var g' := AfterEndRound(g, Some(w));
            && g'.roundCounter == g.roundCounter + 1
            && g'.victories == g.victories[w := g.victories[w] + 1]
            && g'.players == g.players && g'.shuffledPlayers == g.shuffledPlayers
            && g'.hands == g.hands && g'.decks == g.decks
            && (!Over(g'.victories, g'.roundCounter) ==> g'.round == FreshRound(g.players, g.shuffledPlayers, g'.roundCounter))
            && (Over(g'.victories, g'.roundCounter) ==> g'.round == g.round)
  {
  }

  lemma AfterEndRoundStarts(g: GameState, w: Player)
    requires |g.shuffledPlayers| == 2 && w in g.victories
    requires !Over(Credit(g.victories, Some(w)), g.roundCounter + 1)
    ensures AfterEndRound(g, Some(w))
            == GameState(g.players, g.shuffledPlayers, Credit(g.victories, Some(w)), g.roundCounter + 1, g.decks, g.hands,
                         FreshRound(g.players, g.shuffledPlayers, g.roundCounter + 1))
  {
  }

  lemma AfterEndRoundStays(g: GameState, w: Player)
    requires |g.shuffledPlayers| == 2 && w in g.victories
    requires Over(Credit(g.victories, Some(w)), g.roundCounter + 1)
    ensures AfterEndRound(g, Some(w))
            == GameState(g.players, g.shuffledPlayers, Credit(g.victories, Some(w)), g.roundCounter + 1, g.decks, g.hands, g.round)
  {
  }

  /**
   * Ending a round counts it and credits exactly one player, one whose score
   * is the highest, with one victory; a new round starts when the match is
   * not over, and otherwise the finished round stays; hands and decks stay
   * as they are.
   */
  lemma EndRoundRule(g: GameState, g': GameState)
    requires Shape(g) && EndRoundStep(g, g')
    ensures Inv(g')
    ensures g'.roundCounter == g.roundCounter + 1
    ensures exists w :: w in g.players && IsWinnerChoice(Scores(g.round.rows), Some(w))
                        && g'.victories == g.victories[w := g.victories[w] + 1]
    ensures g'.players == g.players && g'.shuffledPlayers == g.shuffledPlayers
    ensures g'.hands == g.hands && g'.decks == g.decks
    ensures !Over(g'.victories, g'.roundCounter) ==> g'.round == FreshRound(g.players, g.shuffledPlayers, g'.roundCounter)
    ensures Over(g'.victories, g'.roundCounter) ==> g'.round == g.round
  {
    assert g.players[0] in Scores(g.round.rows);
    var w :| w in g.victories && IsWinnerChoice(Scores(g.round.rows), Some(w)) && g' == AfterEndRound(g, Some(w));
    CreditKeepsInv(g, w);
    CreditFacts(g, w);
    assert w in g.players;
  }

  /**
   * Until the match is over, passing ends the round exactly when the
   * opponent has already passed, and otherwise hands the turn to the
   * opponent; hands and decks stay as they are.
   */
  lemma PassRule(g: GameState, g': GameState)
    requires Inv(g) && PassStep(g, g')
    ensures Inv(g')
    ensures g'.hands == g.hands && g'.decks == g.decks && g'.players == g.players
    ensures !Over(g.victories, g.roundCounter) ==>
              (g'.roundCounter == g.roundCounter + 1 <==> g.round.passed[Other(g.round)])
    ensures !Over(g.victories, g.roundCounter) && !g.round.passed[Other(g.round)] ==>
              g'.round.current == Other(g.round) && g'.round.passed[g.round.current] && g'.victories == g.victories
  {
    var mid := g.(round := Passed(g.round));
    PassSetsOwnFlag(g.round);
    EndedIffBothPassed(mid.round);
    if Ended(mid.round.passed) {
      EndRoundRule(mid, g');
    } else if !Over(g.victories, g.roundCounter) {
      assert Other(g.round) == g.players[0] || Other(g.round) == g.players[1];
      assert g.round.current == g.players[0] || g.round.current == g.players[1];
    }
  }

  /**
   * Playing a card takes exactly that card out of the current hand and
   * changes no other hand and no deck.
   */
  lemma PlayCardTakesCard(g: GameState, card: Card, placed: map<Player, seq<Row>>, g': GameState)
    requires Inv(g) && PlayCardStep(g, card, placed, g')
    ensures g'.hands.Keys == g.hands.Keys && g'.decks == g.decks
    ensures var cp := g.round.current;
            && |g'.hands[cp]| == |g.hands[cp]| - 1
            && multiset(g'.hands[cp]) == multiset(g.hands[cp]) - multiset{card}
            && forall p :: p in g.hands && p != cp ==> g'.hands[p] == g.hands[p]
  {
    var mid := TakenAndPlaced(g, card, placed);
    if mid.hands[g.round.current] == [] {
      TakingKeepsInv(g, card, placed);
      PassRule(mid, g');
    }
    assert g'.hands == mid.hands && g'.decks == mid.decks;
  }

  /**
   * Until the match is over, a player left with cards hands the turn to the
   * opponent unless the opponent has passed, and a player left without
   * cards passes.
   */
  lemma PlayCardRule(g: GameState, card: Card, placed: map<Player, seq<Row>>, g': GameState)
    requires Inv(g) && PlayCardStep(g, card, placed, g')
    ensures Inv(g') && g'.players == g.players && g'.hands.Keys == g.hands.Keys
    ensures var cp := g.round.current;
            !Over(g.victories, g.roundCounter) && g'.hands[cp] != [] ==>
              && g'.roundCounter == g.roundCounter
              && (g'.round.current == Other(g.round) <==> !g.round.passed[Other(g.round)])
    ensures var cp := g.round.current;
            g'.hands[cp] == [] && g'.roundCounter == g.roundCounter ==> g'.round.passed[cp]
  {
    var cp := g.round.current;
    var mid := TakenAndPlaced(g, card, placed);
    TakingKeepsInv(g, card, placed);
    PlayCardTakesCard(g, card, placed, g');
    if mid.hands[cp] == [] {
      var passed := mid.(round := Passed(mid.round));
      PassRule(mid, g');
      PassSetsOwnFlag(mid.round);
      if Ended(passed.round.passed) {
        EndRoundRule(passed, g');
      } else {
        assert g' == passed;
      }
    } else {
      assert g' == mid.(round := Swapped(mid.round));
      SwapHandsOverOnlyToUnpassed(mid.round);
      assert Other(mid.round) == Other(g.round);
    }
  }

  lemma TakingKeepsInv(g: GameState, card: Card, placed: map<Player, seq<Row>>)
    requires Inv(g) && g.round.current in g.hands && placed.Keys == g.round.rows.Keys
    ensures Inv(TakenAndPlaced(g, card, placed))
  {
  }

  /** Between commands given before the match is over, no count goes past its limit. */
  lemma EndRoundKeepsBounds(g: GameState, g': GameState)
    requires Shape(g) && Bounded(g) && !Over(g.victories, g.roundCounter) && EndRoundStep(g, g')
    ensures Bounded(g')
  {
    assert g.players[0] in Scores(g.round.rows);
    var w :| w in g.victories && IsWinnerChoice(Scores(g.round.rows), Some(w)) && g' == AfterEndRound(g, Some(w));
    CreditFacts(g, w);
    assert g.victories[w] < 2;
  }

  lemma PassKeepsBounds(g: GameState, g': GameState)
    requires Inv(g) && Bounded(g) && !Over(g.victories, g.roundCounter) && PassStep(g, g')
    ensures Bounded(g')
  {
    var mid := g.(round := Passed(g.round));
    PassSetsOwnFlag(g.round);
    if Ended(mid.round.passed) {
      EndRoundKeepsBounds(mid, g');
    }
  }

  lemma PlayCardKeepsBounds(g: GameState, card: Card, placed: map<Player, seq<Row>>, g': GameState)
    requires Inv(g) && Bounded(g) && !Over(g.victories, g.roundCounter) && PlayCardStep(g, card, placed, g')
    ensures Bounded(g')
  {
    var mid := TakenAndPlaced(g, card, placed);
    if mid.hands[g.round.current] == [] {
      TakingKeepsInv(g, card, placed);
      PassKeepsBounds(mid, g');
    }
  }

  /**
   * A match that is over within its limits has exactly one winner: the
   * player with two victories (after three rounds one of the two must have
   * them, and both cannot).
   */
  lemma OneWinner(g: GameState)
    requires Shape(g) && Bounded(g) && Over(g.victories, g.roundCounter)
    ensures exists p | p in g.victories :: g.victories[p] == 2
    ensures forall p, q | p in g.victories && q in g.victories && g.victories[p] == 2 && g.victories[q] == 2 :: p == q
  {
    var p0, p1 := g.players[0], g.players[1];
    assert forall p | p in g.victories :: p == p0 || p == p1;
  }

  /** The state a new game starts in keeps the invariant and the bounds. */
  lemma InitialStateKeepsInv(players: seq<Player>, shuffledPlayers: seq<Player>,
                             decks: map<Player, seq<Card>>, hands: map<Player, seq<Card>>)
    requires TwoPlayers(players) && IsOrderOf(shuffledPlayers, players)
    requires hands.Keys == Members(players) && decks.Keys == Members(players)
    ensures var g := GameState(players, shuffledPlayers, map p | p in players :: 0, 0, decks, hands,
                               FreshRound(players, shuffledPlayers, 0));
            Inv(g) && Bounded(g)
  {
    StartsAlternate(players, shuffledPlayers, 0);
    KeyedByMembers(hands, players);
    KeyedByMembers(decks, players);
    KeyedByMembers(map p | p in players :: 0, players);
  }

  // ---------------------------------------------------------------------
  // The game object

  /** `playCard` either plays the card or raises an `IllegalStateException`. */
  datatype PlayResult = Played | NotInHand

  /** Adding a shuffled pool to an empty hand and an empty deck deals it. */
  lemma DealingShuffled(hand: seq<Card>, deck: seq<Card>, candidates: seq<Card>, pool: seq<Card>)
    requires hand == [] && deck == [] && multiset(candidates) == multiset(pool)
    ensures var dealt := if |candidates| < InitialHandSize then |candidates| else InitialHandSize;
            DealtFrom(hand + candidates[..dealt], deck + candidates[dealt..], pool)
  {
    var dealt := if |candidates| < InitialHandSize then |candidates| else InitialHandSize;
    assert |candidates| == |multiset(candidates)| == |multiset(pool)| == |pool|;
    assert (hand + candidates[..dealt]) + (deck + candidates[dealt..]) == candidates;
  }

  /** `newRound()`'s `new Round(...)`. */
  method StartRound(players: seq<Player>, shuffledPlayers: seq<Player>, roundCounter: nat) returns (round: Round)
    requires TwoPlayers(players) && |shuffledPlayers| == 2 && shuffledPlayers[roundCounter % 2] in players
    ensures fresh(round) && round.State() == FreshRound(players, shuffledPlayers, roundCounter)
  {
    round := new Round(players, EmptyRows(players), NonePassed(players), shuffledPlayers[roundCounter % 2]);
  }

  predicate DistinctPlayers(players: seq<Player>) {
    forall i, j :: 0 <= i < j < |players| ==> players[i] != players[j]
  }

  /** The first `i` players have been dealt their hands and decks, the others nothing yet. */
  predicate DealtUpTo(players: seq<Player>, initialDecks: map<Player, seq<Card>>,
                      hands: map<Player, seq<Card>>, decks: map<Player, seq<Card>>, i: nat)
  {
    && i <= |players|
    && (forall p :: p in players ==> p in initialDecks)
    && hands.Keys == Members(players) && decks.Keys == Members(players)
    && (forall k :: 0 <= k < i ==> DealtFrom(hands[players[k]], decks[players[k]], initialDecks[players[k]]))
    && (forall k :: i <= k < |players| ==> hands[players[k]] == [] && decks[players[k]] == [])
  }

  lemma DealNext(players: seq<Player>, initialDecks: map<Player, seq<Card>>,
                 hands: map<Player, seq<Card>>, decks: map<Player, seq<Card>>, i: nat,
                 hand: seq<Card>, deck: seq<Card>)
    requires DistinctPlayers(players) && DealtUpTo(players, initialDecks, hands, decks, i) && i < |players|
    requires DealtFrom(hand, deck, initialDecks[players[i]])
    ensures DealtUpTo(players, initialDecks, hands[players[i] := hand], decks[players[i] := deck], i + 1)
  {
    var p := players[i];
    forall k | 0 <= k < |players| && k != i
      ensures players[k] != p
    {
    }
  }

  /**
   * `prepareDecksAndHands(initialDecks)`: player by player, shuffle a copy
   * of the initial deck, deal its first `InitialHandSize` cards to the hand
   * and the rest to the deck.
   */
  method PrepareDecksAndHands(players: seq<Player>, initialDecks: map<Player, seq<Card>>, rand: Random)
    returns (hands: map<Player, seq<Card>>, decks: map<Player, seq<Card>>)
    requires DistinctPlayers(players)
    requires forall p :: p in players ==> p in initialDecks
    modifies rand
    ensures hands.Keys == Members(players) && decks.Keys == Members(players)
    ensures forall p :: p in players ==> DealtFrom(hands[p], decks[p], initialDecks[p])
  {
    hands := map p | p in players :: [];
    decks := map p | p in players :: [];
    var i := 0;
    while i < |players|
      invariant DealtUpTo(players, initialDecks, hands, decks, i)
    {
      var p := players[i];
      var candidates := Shuffle(initialDecks[p], rand);
      var dealt := if |candidates| < InitialHandSize then |candidates| else InitialHandSize;
      var hand, deck := hands[p] + candidates[..dealt], decks[p] + candidates[dealt..];
      DealingShuffled(hands[p], decks[p], candidates, initialDecks[p]);
      DealNext(players, initialDecks, hands, decks, i, hand, deck);
      hands := hands[p := hand];
      decks := decks[p := deck];
      i := i + 1;
    }
  }

  class Game {
    const rand: Random
    var victories: map<Player, nat>
    var roundCounter: nat
    const players: seq<Player>
    const shuffledPlayers: seq<Player>
    const decks: map<Player, seq<Card>>
    var hands: map<Player, seq<Card>>
    var round: Round

    function State(): GameState
      reads this, round
    {
      GameState(players, shuffledPlayers, victories, roundCounter, decks, hands, round.State())
    }

    ghost predicate Valid()
      reads this, round
    {
      Inv(State())
    }

    /**
     * `Game(seed, players, initialDecks)`. `seeded` stands for the outputs
     * of the generator that `new Random(seed)` makes.
     */
    constructor (seeded: nat -> nat, players: seq<Player>, initialDecks: map<Player, seq<Card>>)
      requires TwoPlayers(players)
      requires forall p :: p in players ==> p in initialDecks
      ensures Valid() && Bounded(State())
      ensures this.players == players && roundCounter == 0
      ensures victories == map p | p in players :: 0
      ensures forall p :: p in players ==> DealtFrom(hands[p], decks[p], initialDecks[p])
      ensures multiset(shuffledPlayers) == multiset(players)
      ensures round.State() == FreshRound(players, shuffledPlayers, 0)
      ensures fresh(round) && fresh(rand)
    {
      var rnd := new Random(seeded);
      rand := rnd;
      this.players := players;
      victories := map p | p in players :: 0;
      roundCounter := 0;
      var dealtHands, dealtDecks := PrepareDecksAndHands(players, initialDecks, rnd);
      hands := dealtHands;
      decks := dealtDecks;
      var order := Shuffle(players, rnd);
      shuffledPlayers := order;
      ShuffledIsOrder(players, order);
      var first := StartRound(players, order, 0);
      round := first;
      new;
      InitialStateKeepsInv(players, order, dealtDecks, dealtHands);
      assert State() == GameState(players, order, map p | p in players :: 0, 0, dealtDecks, dealtHands,
                                  FreshRound(players, order, 0));
    }

    predicate GameOver()
      reads this
    {
      Over(victories, roundCounter)
    }

    /** `getWinner()`: any player with two victories. */
    method GetWinner() returns (winner: Option<Player>)
      ensures winner.None? <==> !exists p | p in victories :: victories[p] == 2
      ensures winner.Some? ==> winner.value in victories && victories[winner.value] == 2
    {
      var unseen := victories.Keys;
      while unseen != {}
        invariant unseen <= victories.Keys
        invariant forall p | p in victories && p !in unseen :: victories[p] != 2
        decreases unseen
      {
        var p :| p in unseen;
        if victories[p] == 2 {
          return Some(p);
        }
        unseen := unseen - {p};
      }
      return None;
    }

    /** `newRound()`. */
    method NewRound()
      requires TwoPlayers(players) && IsOrderOf(shuffledPlayers, players)
      modifies this`round
      ensures fresh(round) && round.State() == FreshRound(players, shuffledPlayers, roundCounter)
    {
      round := StartRound(players, shuffledPlayers, roundCounter);
    }

    /** The first steps of `endRound()`: count the round and credit the player `findWinner()` chooses. */
    method CountRound() returns (ghost w: Player)
      requires KeyedBy(victories, players) && KeyedBy(round.rows, players)
      modifies this`roundCounter, this`victories
      ensures w in old(victories) && IsWinnerChoice(Scores(round.rows), Some(w))
      ensures victories == Credit(old(victories), Some(w)) && roundCounter == old(roundCounter) + 1
    {
      ghost var rows := round.rows;
      roundCounter := roundCounter + 1;
      var roundWinner := round.FindWinner();
      WinnerOfKeyedScores(rows, victories, players, roundWinner);
      w := roundWinner.value;
      if roundWinner.Some? {
        victories := victories[roundWinner.value := victories[roundWinner.value] + 1];
      }
    }

    /** `endRound()`. */
    method EndRound()
      requires Shape(State())
      modifies this`roundCounter, this`victories, this`round
      ensures Valid() && EndRoundStep(old(State()), State())
      ensures round != old(round) <==> !GameOver()
      ensures round != old(round) ==> fresh(round)
    {
      ghost var g := State();
      ghost var w := CountRound();
      assert hands == g.hands && round.State() == g.round;
      if !GameOver() {
        NewRound();
        AfterEndRoundStarts(g, w);
        assert State() == AfterEndRound(g, Some(w));
      } else {
        AfterEndRoundStays(g, w);
        assert State() == AfterEndRound(g, Some(w));
      }
      EndRoundBy(g, w, State());
    }

    /** `pass()`. */
    method Pass()
      requires Valid()
      modifies this, round
      ensures Valid() && PassStep(old(State()), State())
      ensures old(Bounded(State()) && !GameOver()) ==> Bounded(State())
      ensures round == old(round) || fresh(round)
    {
      ghost var g := State();
      round.Pass();
      if round.HasEnded() {
        EndRound();
      }
      PassRule(g, State());
      if Bounded(g) && !Over(g.victories, g.roundCounter) {
        PassKeepsBounds(g, State());
      }
    }

    /**
     * `playCard(card)`: take the card out of the current player's hand,
     * failing when it is not there; let the round place it; then pass for
     * a player left without cards, or hand the turn over if possible.
     */
    method PlayCard(card: Card) returns (result: PlayResult)
      requires Valid()
      modifies this, round
      ensures Valid()
      ensures result == NotInHand <==> card !in old(hands[round.currentPlayer])
      ensures result == NotInHand ==> round == old(round) && State() == old(State())
      ensures result == Played ==> exists placed :: PlayCardStep(old(State()), card, placed, State())
      ensures old(Bounded(State()) && !GameOver()) ==> Bounded(State())
      ensures round == old(round) || fresh(round)
    {
      ghost var g := State();
      var player := round.currentPlayer;
      var found := card in hands[player];
      hands := hands[player := RemoveFirst(hands[player], card)];
      if !found {
        assert hands == g.hands;
        return NotInHand;
      }
      round.PlayCard(card);
      ghost var placed := round.rows;
      ghost var mid := TakenAndPlaced(g, card, placed);
      assert State() == mid;
      if |hands[round.currentPlayer]| == 0 {
        Pass();
        assert PassStep(mid, State());
      } else {
        round.SwapPlayerIfPossible();
        assert State() == mid.(round := Swapped(mid.round));
      }
      assert PlayCardStep(g, card, placed, State());
      PlayCardRule(g, card, placed, State());
      if Bounded(g) && !Over(g.victories, g.roundCounter) {
        PlayCardKeepsBounds(g, card, placed, State());
      }
      result := Played;
    }
  }
}
