/**
 * One round of a match (Round.java): whose turn it is, who has passed, the
 * rows of engaged cards of each player, and the scores those rows add up to.
 *
 * `RoundState` is the value of a round's four fields; the pure functions on
 * it (`Other`, `Swapped`, `Passed`, `Ended`, `Scores`) say what the
 * operations of the `Round` class do, and the lemmas below them state the
 * rules of play those operations keep.
 */
module Rounds {
  import opened Wrappers
  import opened JavaUtil
  import opened Cards

  datatype RoundState = RoundState(
    players: seq<Player>,
    rows: map<Player, seq<Row>>,
    passed: map<Player, bool>,
    current: Player)

  function Members(players: seq<Player>): set<Player> {
    set p | p in players
  }

  /** The keys of `m` are the two players and no one else. */
  predicate KeyedBy<V>(m: map<Player, V>, players: seq<Player>) {
    |players| == 2 && players[0] in m && players[1] in m && forall p | p in m :: p == players[0] || p == players[1]
  }

  lemma KeyedByMembers<V>(m: map<Player, V>, players: seq<Player>)
    requires |players| == 2 && m.Keys == Members(players)
    ensures KeyedBy(m, players)
  {
  }

  /**
   * The rounds the game builds: two different players, the current player
   * one of them, and one passed flag and one list of rows per player.
   */
  predicate WellFormed(s: RoundState) {
    && |s.players| == 2 && s.players[0] != s.players[1]
    && s.current in s.players
    && KeyedBy(s.passed, s.players)
    && KeyedBy(s.rows, s.players)
  }

  /** `getOtherPlayer()`: the first player of the list that is not (by reference) the current one. */
  function Other(s: RoundState): (o: Player)
    requires WellFormed(s)
    ensures o in s.players && o != s.current
    ensures forall p :: p in s.players && p != s.current ==> p == o
  {
    if s.players[0] != s.current then s.players[0] else s.players[1]
  }

  /** `swapPlayerIfPossible()`: the turn goes to the other player unless that player has passed. */
  function Swapped(s: RoundState): RoundState
    requires WellFormed(s)
  {
    if !s.passed[Other(s)] then s.(current := Other(s)) else s
  }

  /** `pass()`: the current player's flag is set, then the turn is handed over if possible. */
  function Passed(s: RoundState): RoundState
    requires WellFormed(s)
  {
    Swapped(s.(passed := s.passed[s.current := true]))
  }

  /** `hasEnded()`: every flag is set. */
  predicate Ended(passed: map<Player, bool>) {
    forall p | p in passed :: passed[p]
  }

  // ---------------------------------------------------------------------
  // Scores

  /** The current values of all cards of a player's rows, row after row. */
  function AllValues(rows: seq<Row>): seq<int> {
    if rows == [] then [] else AllValues(rows[..|rows| - 1]) + RowValues(rows[|rows| - 1])
  }

  /** A row's `int` sum, as the inner stream computes it. */
  function RowSum(row: Row): int {
    Int32Sum(RowValues(row))
  }

  /** A player's score: the `int` sum of the row sums, folded from the first row. */
  function Score(rows: seq<Row>): (score: int)
    ensures IsInt32(score)
  {
    if rows == [] then 0 else ToInt32(Score(rows[..|rows| - 1]) + RowSum(rows[|rows| - 1]))
  }

  /** `computeScores()`: each player with rows, mapped to that player's score. */
  function Scores(rows: map<Player, seq<Row>>): (scores: map<Player, int>)
    ensures scores.Keys == rows.Keys
  {
    map p | p in rows :: Score(rows[p])
  }

  /**
   * `findWinner()` may return any player whose score is the highest (which
   * one of several depends on hash-map order), and nothing only when there
   * are no scores at all.
   */
  predicate IsWinnerChoice(scores: map<Player, int>, winner: Option<Player>) {
    && (winner.None? <==> scores == map[])
    && (winner.Some? ==> winner.value in scores && forall q :: q in scores ==> scores[q] <= scores[winner.value])
  }

  // ---------------------------------------------------------------------
  // The rules the operations keep

  /**
   * Handing over the turn changes nothing but the current player, and
   * changes that exactly when the other player has not passed.
   */
  lemma SwapHandsOverOnlyToUnpassed(s: RoundState)
    requires WellFormed(s)
    ensures WellFormed(Swapped(s))
    ensures Swapped(s).passed == s.passed && Swapped(s).rows == s.rows && Swapped(s).players == s.players
    ensures Swapped(s).current != s.current <==> !s.passed[Other(s)]
    ensures Swapped(s).current != s.current ==> Swapped(s).current == Other(s)
  {
  }

  /**
   * Passing sets the passer's flag and no other; afterwards either the
   * round has ended or the player whose turn it is has not passed.
   */
  lemma PassSetsOwnFlag(s: RoundState)
    requires WellFormed(s)
    ensures WellFormed(Passed(s)) && Passed(s).rows == s.rows && Passed(s).players == s.players
    ensures Passed(s).passed.Keys == s.passed.Keys && Passed(s).passed[s.current]
    ensures forall p :: p in s.passed && p != s.current ==> Passed(s).passed[p] == s.passed[p]
    ensures Ended(Passed(s).passed) || !Passed(s).passed[Passed(s).current]
  {
    var t := s.(passed := s.passed[s.current := true]);
    assert Other(t) == Other(s);
    if t.passed[Other(t)] {
      assert forall p :: p in t.passed ==> p == s.current || p == Other(s);
    }
  }

  /** A round has ended exactly when both of its players have passed. */
  lemma EndedIffBothPassed(s: RoundState)
    requires WellFormed(s)
    ensures Ended(s.passed) <==> s.passed[s.players[0]] && s.passed[s.players[1]]
  {
    assert forall p :: p in s.passed ==> p == s.players[0] || p == s.players[1];
  }

  /** No operation of a round ever clears a flag. */
  lemma FlagsNeverReset(s: RoundState)
    requires WellFormed(s)
    ensures forall p :: p in s.passed && s.passed[p] ==> Swapped(s).passed[p] && Passed(s).passed[p]
  {
    PassSetsOwnFlag(s);
  }

  /** Once a round has ended, passing again leaves it as it is. */
  lemma PassAfterEndChangesNothing(s: RoundState)
    requires WellFormed(s) && Ended(s.passed)
    ensures Passed(s) == s
  {
    assert s.passed[s.current := true] == s.passed;
  }

  /**
   * A score is the sum of the current values of all the player's cards,
   * wrapped around to an `int` once, and so exactly that sum whenever the
   * sum fits in an `int`.
   */
  lemma {:induction false} ScoreIsWrappedTotal(rows: seq<Row>)
    ensures Score(rows) == ToInt32(Sum(AllValues(rows)))
    ensures IsInt32(Sum(AllValues(rows))) ==> Score(rows) == Sum(AllValues(rows))
  {
    if rows != [] {
      var init, last := rows[..|rows| - 1], rows[|rows| - 1];
      ScoreIsWrappedTotal(init);
      Int32SumIsWrappedSum(RowValues(last));
      WrapBoth(Score(init), RowSum(last), Sum(AllValues(init)), Sum(RowValues(last)));
      assert AllValues(rows) == AllValues(init) + RowValues(last);
      SumAppend(AllValues(init), RowValues(last));
    }
  }

  /** Adding two wrapped numbers and wrapping gives the wrapped exact sum. */
  lemma WrapBoth(x: int, y: int, a: int, b: int)
    requires x == ToInt32(a) && y == ToInt32(b)
    ensures ToInt32(x + y) == ToInt32(a + b)
  {
    ToInt32Add(x, b);
    ToInt32Add(b, a);
  }

  /** Cards as EngagedCard's constructor leaves them count for nothing. */
  lemma {:induction false} FreshlyEngagedScoreNothing(rows: seq<Row>)
    requires forall i, j :: 0 <= i < |rows| && 0 <= j < |rows[i].cards| ==> rows[i].cards[j] == Engage(rows[i].cards[j].card)
    ensures Score(rows) == 0
  {
    if rows != [] {
      var init, last := rows[..|rows| - 1], rows[|rows| - 1];
      FreshlyEngagedScoreNothing(init);
      assert RowValues(last) == seq(|last.cards|, _ => 0);
      ZerosSumToNothing(|last.cards|);
    }
  }

  lemma {:induction false} ZerosSumToNothing(n: nat)
    ensures Int32Sum(seq(n, _ => 0)) == 0
  {
    if n > 0 {
      assert seq(n, _ => 0)[..n - 1] == seq(n - 1, _ => 0);
      ZerosSumToNothing(n - 1);
    }
  }

  // ---------------------------------------------------------------------
  // The round object

  class Round {
    const players: seq<Player>
    var rows: map<Player, seq<Row>>
    var passed: map<Player, bool>
    var currentPlayer: Player

    function State(): RoundState
      reads this
    {
      RoundState(players, rows, passed, currentPlayer)
    }

    ghost predicate Valid()
      reads this
    {
      WellFormed(State())
    }

    /**
     * The all-arguments constructor. It checks nothing: a round that is not
     * well formed fails later, in `getOtherPlayer` or when a flag is read.
     */
    constructor (players: seq<Player>, rows: map<Player, seq<Row>>, passed: map<Player, bool>, currentPlayer: Player)
      requires WellFormed(RoundState(players, rows, passed, currentPlayer))
      ensures Valid() && State() == RoundState(players, rows, passed, currentPlayer)
    {
      this.players := players;
      this.rows := rows;
      this.passed := passed;
      this.currentPlayer := currentPlayer;
    }

    /** `hasPassed(p)`; a player without a flag makes the source fail on unboxing. */
    function HasPassed(p: Player): bool
      reads this
      requires p in passed
    {
      passed[p]
    }

    function GetOtherPlayer(): (o: Player)
      reads this
      requires Valid()
      ensures o in players && o != currentPlayer
    {
      Other(State())
    }

    method SwapPlayerIfPossible()
      requires Valid()
      modifies this
      ensures Valid() && State() == Swapped(old(State()))
    {
      if !passed[GetOtherPlayer()] {
        currentPlayer := GetOtherPlayer();
      }
    }

    method Pass()
      requires Valid()
      modifies this
      ensures Valid() && State() == Passed(old(State()))
    {
      passed := passed[currentPlayer := true];
      SwapPlayerIfPossible();
    }

    function HasEnded(): (ended: bool)
      reads this
      ensures Valid() ==> (ended <==> passed[players[0]] && passed[players[1]])
    {
      Ended(passed)
    }

    function ComputeScores(): (scores: map<Player, int>)
      reads this
      ensures scores.Keys == rows.Keys
      ensures forall p | p in scores :: IsInt32(scores[p])
    {
      Scores(rows)
    }

    /**
     * `findWinner()`: the maximum of the score entries, visited in an order
     * the hash map chooses; a later entry replaces the best so far only
     * when its score is strictly greater.
     */
    method FindWinner() returns (winner: Option<Player>)
      ensures IsWinnerChoice(ComputeScores(), winner)
    {
      var scores := ComputeScores();
      var unseen := scores.Keys;
      winner := None;
      while unseen != {}
        invariant unseen <= scores.Keys
        invariant winner.None? <==> unseen == scores.Keys
        invariant winner.Some? ==> winner.value in scores && winner.value !in unseen
        invariant winner.Some? ==> forall q :: q in scores && q !in unseen ==> scores[q] <= scores[winner.value]
        decreases unseen
      {
        var p :| p in unseen;
        if winner.None? || scores[p] > scores[winner.value] {
          winner := Some(p);
        }
        unseen := unseen - {p};
      }
      assert scores == map[] <==> scores.Keys == {};
    }

    /**
     * The step `Game.playCard` delegates to. Round.java defines no such
     * method, so where the card goes is not known: all a caller may rely on
     * is that the flags, the turn and the players stay as they are and that
     * every player keeps a list of rows. (The body has to do something; it
     * leaves the rows alone, and nothing is proved from that.)
     */
    method PlayCard(card: Card)
      requires Valid()
      modifies this
      ensures Valid() && State() == old(State()).(rows := rows) && rows.Keys == old(rows.Keys)
    {
    }
  }
}
